# BridgeVM tooling: verified models

BridgeVM's release evidence rests on a set of scripts: one builds the boot disk, some stop, kill and clean up helper
processes, some write and check benchmark disks, delete old outputs, and decide which measurements and receipts count.
This project models those scripts in Dafny and proves what they are relied on for. `dafny verify dfyconfig.toml` checks
all of it.

| files | scripts |
|---|---|
| `Bytes`, `FatGeometry`, `BootLayout`, `BootMedia`, `DiskReaders`, `BootProof` | the GPT/FAT16 boot-media builder, and firmware that reads its image: readers written from sections 5.2.3 and 5.3 and appendix A of the UEFI Specification 2.10 and from "FAT Type Determination" and the directory and FAT chapters of Microsoft's FAT specification, sharing only the byte helpers, the checksum type and the 32-bit words with the builder |
| `RestoreProtocol`, `StopPoints` | stopping, confirming, killing and reaping a snapshot helper that runs at the same time |
| `Auxiliary` | helper commands in process groups of their own, and the media tree that may go only when all of them are gone |
| `Receipt` | the incremental parser of guest-agent receipts, and the lines the agent console prints for it |
| `DiskPattern` | the benchmark's block pattern, in 64-bit words, and its readback |
| `Retention`, `RetentionPlan`, `Archive` | planning and applying the deletion of old output disks |
| `Sorting`, `Statistics`, `Campaign` | accepting benchmark campaigns, and what their comparison claims |
| `Ppm`, `Mask` | captured frames, and masks of glyph pixels |
| `Audio` | reconciling audio logs |
| `Json`, `Claim` | comparing documents, and the chain of receipts behind the A9 claim |
| `Worklist` | the packages reachable from the shipped roots |

Byte buffers are arrays written in place and compared with a log of slice assignments; the parser, the command runner,
the process table and the archive queue are classes. Two things are step systems, where the point is what another
process does between two steps: the restore protocol is a function over any list of observer and outside moves, and the
classes `Kernel` and `Queue` let the outside act inside every call. A method that can be cut off anywhere states its
postcondition for every point where it may stop.

What the proofs brought to light:

- `fat_geometry` does not stop on every partition size. It stops exactly when the size plus 995 leaves a remainder
  under 1024 modulo 1026 (`FatGeometry.LoopStopsExactlyWhenSettles`); the shipped size is one of these.
- The seed of a disk block is injective below block 2^32 only (`DiskPattern.SeedInjective`); the shipped file has 16384
  blocks.
- An interrupt that lands between the start of the `finally` block of `Commands.run` and its inner `try` leaves
  `cleanup_verified` set with the helper alive, and the media are removed under it (`Auxiliary.SlippedInterrupt`). The
  guarantee on removing media holds in every run without such an interrupt (`Auxiliary.Decide`, `Auxiliary.Run`).
- A stop signal can reach a foreign process only if somebody else reaps the helper, and a stopped helper can run again
  only if somebody else continues it after its stop was seen; `RestoreProtocol` has both the guarantee and the two runs.
- A helper whose leader is reaped elsewhere counts as one that exited with 0; the success of `Commands.run` says no more
  (`Auxiliary.Commands.Run`).
- The boot report says "AB baseline does not match the AA baseline" but compares the first AB run, whatever its role
  (scripts/hvf_boot_performance_report.py:378-383). The baselines match exactly when that run is a baseline
  (`Campaign.BaselineMatchesExactlyWhenFirst`), and campaigns with different baselines are accepted
  (`Campaign.MismatchedBaselinesAccepted`). The storage report looks the baseline up.
- A proposed mask can fail the verifier's contrast check: exactly when the box has one luminance throughout and its first
  48 and last 16 pixels have one colour (`Mask.ContrastExactly`); `Mask.ProposalRefused` has boxes of two colours for
  which this happens.
- `first_difference` compares types only down to lists, so it calls `[true]` and `[1]` the same. It means equality exactly
  for expected documents with no truth value, 0 or 1 below a list (`Json.SameExactlyWhenClear`). Receipts are such
  documents (`Claim.EncodeIsClear`), so an accepted receipt is the built one to the last field (`Claim.VerifiedIsBuilt`).

## Model

| member | source | states |
|---|---|---|
| FatGeometry.FixedExactlyWhenSettles | scripts/build-bridgevm-pc-boot-media.py:55-59 | the loop has a fixed point exactly when the partition size avoids two of the 1026 remainders named in the condition, and it is then the only one |
| FatGeometry.LoopStopsExactlyWhenSettles | scripts/build-bridgevm-pc-boot-media.py:54-60 | the loop started at one sector stops, for every partition size, exactly under that condition; a measure on the distance to the fixed point |
| FatGeometry.OscillatesAtLimit | scripts/build-bridgevm-pc-boot-media.py:55-60 | on the other sizes the two sizes around the limit ask for each other |
| FatGeometry.CycleTurn | scripts/build-bridgevm-pc-boot-media.py:54-60 | and the loop started at one runs into that pair, so it never returns |
| FatGeometry.ShippedSizes | scripts/build-bridgevm-pc-boot-media.py:64-65 | 128991 sectors settle at 126, and 1055 sectors do not settle |
| FatGeometry.Geometry | scripts/build-bridgevm-pc-boot-media.py:52-60 | what the loop returns: the unique fixed point, a FAT entry for every cluster, and regions that fit the partition |
| BootLayout.ImageWritesApart | scripts/build-bridgevm-pc-boot-media.py:63-126 | no two of the thirteen slices of the image overlap; those of the volume stay inside the partition, the others outside |
| BootLayout.GptLogApart | scripts/build-bridgevm-pc-boot-media.py:107-124 | the writes of the partition tables are in bounds and pairwise disjoint |
| BootLayout.VolumeLogApart | scripts/build-bridgevm-pc-boot-media.py:63-104 | the writes of the volume are in bounds and pairwise disjoint |
| BootLayout.FatTableEntry | scripts/build-bridgevm-pc-boot-media.py:78-87 | every entry of the table: reserved, a link to the next cluster, end of chain, or free |
| BootLayout.EntryFields | scripts/build-bridgevm-pc-boot-media.py:24-37 | name, attributes, cluster and size of an entry are found where the FAT specification puts them |
| BootLayout.EntryStamps | scripts/build-bridgevm-pc-boot-media.py:27-36 | every entry says that it was created, read and written on 7 May 2026 at 13:30, by the date and time formats of the FAT specification |
| BootMedia.DirectoryEntry | scripts/build-bridgevm-pc-boot-media.py:24-37 | refuses exactly the names that are not eleven bytes; otherwise the 32 bytes the readers take apart |
| BootMedia.GptHeader | scripts/build-bridgevm-pc-boot-media.py:40-49 | the header built in place, its CRC over the first 92 bytes with the CRC field zero |
| BootMedia.FillFat | scripts/build-bridgevm-pc-boot-media.py:78-87 | the chain loop leaves exactly the specified table |
| BootMedia.BootSector | scripts/build-bridgevm-pc-boot-media.py:68-75 | the boot sector built in place |
| BootMedia.EfiCluster | scripts/build-bridgevm-pc-boot-media.py:96-99 | the EFI directory cluster with its three entries |
| BootMedia.BootCluster | scripts/build-bridgevm-pc-boot-media.py:101-104 | the BOOT directory cluster with its three entries |
| BootMedia.BuildFat | scripts/build-bridgevm-pc-boot-media.py:63-104 | writes exactly the volume into the partition, or refuses an application that does not fit and says so |
| BootMedia.BuildGpt | scripts/build-bridgevm-pc-boot-media.py:110-124 | writes both partition tables and the protective record in a fresh image |
| BootMedia.Build | scripts/build-bridgevm-pc-boot-media.py:107-126 | accepts exactly the PE images that fit; firmware reads an accepted one back from the image, whichever valid header and FAT it uses, behind a protective MBR; both FATs agree and hold nothing else; disk, partition and volume identify themselves |
| BootProof.HeaderSeal | scripts/build-bridgevm-pc-boot-media.py:40-49 | zeroing the CRC field of a stored header gives back the bytes its CRC was taken over, for any checksum function |
| BootProof.ImageProtected | scripts/build-bridgevm-pc-boot-media.py:111-112 | the first block is a protective MBR: the signature, one record of type 0xEE from block 1 over all other blocks, and three empty records |
| BootProof.HeadersAgree | scripts/build-bridgevm-pc-boot-media.py:107-124 | both headers verify, name each other, seal equal entry arrays and keep the usable range clear of tables and headers |
| BootProof.EntryParses | scripts/build-bridgevm-pc-boot-media.py:113-119 | a reader finds kind, identifier, extent, attributes and name of the one partition, and no other entry in use |
| BootProof.GuidsRead | scripts/build-bridgevm-pc-boot-media.py:14-21 | the three identifiers, read in GUID byte order, are those the source writes |
| BootProof.ImageIdentified | scripts/build-bridgevm-pc-boot-media.py:68-75 | from either header, the disk, its one partition and its volume carry the identifiers, names and labels of the source |
| BootProof.Mounts | scripts/build-bridgevm-pc-boot-media.py:63-75 | a reader that knows only the FAT specification mounts the volume as FAT16 with these parameters |
| BootProof.ImageFatsAgree | scripts/build-bridgevm-pc-boot-media.py:76-91 | the two FATs are equal, and exactly the clusters behind the last one of the application are free |
| BootProof.ChainReads | scripts/build-bridgevm-pc-boot-media.py:83-87 | from every link on, the chain yields the rest of the application and then ends |
| BootProof.VolumeBoots | scripts/build-bridgevm-pc-boot-media.py:63-104 | root, EFI, BOOT and BOOTAA64.EFI are found in turn on a clean volume, each directory with its dot entries, and the file read is the application, through either FAT |
| BootProof.ImageBoots | scripts/build-bridgevm-pc-boot-media.py:63-126 | the round trip: firmware starting from either header and using either FAT reads back exactly the application |
| RestoreProtocol.RunKeeps | scripts/live-gates/a19_interrupt_restore_child.py:23-70 | the invariant holds in every interleaving of observer, helper and operating system, cut off anywhere |
| RestoreProtocol.ObserveKeeps | scripts/live-gates/a19_interrupt_restore_child.py:97-128 | every step of the observer keeps the invariant on ownership, aim, freezing and outcome |
| RestoreProtocol.ReturnedMeansKilledUnpublished | scripts/live-gates/a19_interrupt_restore_child.py:97-128 | an observation is returned only if the helper was stopped with its stage complete and the old selection in force, was seen reading the staged disk, took no step from then to its kill unless somebody else continued it after its stop was seen, so that the stage is still complete, was killed and reaped here, and the old selection is still in force |
| RestoreProtocol.StopNeedsAllChecks | scripts/live-gates/a19_interrupt_restore_child.py:27-36 | the stop is sent only after the stage was seen complete, then the old selection in force, then the staged disk open |
| RestoreProtocol.EndsInTime | scripts/live-gates/a19_interrupt_restore_child.py:23-67 | once every deadline has passed, the observer has returned or raised after eighteen more calls, whatever the helper and everybody else do |
| RestoreProtocol.NoSignalAfterOwnReap | scripts/live-gates/a19_interrupt_restore_child.py:43-68 | returning or raising, no signal goes to a pid the observer reaped or was told somebody else reaped; one goes astray only after somebody else reaped the helper |
| RestoreProtocol.NoLiveHelperLeft | scripts/live-gates/a19_interrupt_restore_child.py:113-119 | however it ends, the helper is reaped or has been sent SIGKILL |
| RestoreProtocol.Undisturbed | scripts/live-gates/a19_interrupt_restore_child.py:23-70 | when nobody else continues the helper after its stop was seen, it takes no step after that; when nobody else reaps it, no signal goes astray |
| RestoreProtocol.ForeignReapMisdirects | scripts/live-gates/a19_interrupt_restore_child.py:35-36 | a run in which somebody else reaps the helper and the stop signal goes to a freed pid |
| RestoreProtocol.ForeignContinueLetsItStep | scripts/live-gates/a19_interrupt_restore_child.py:48-58 | a run in which somebody else continues the helper after the confirmation and it takes a step |
| RestoreProtocol.SomeRunReturns | scripts/live-gates/a19_interrupt_restore_child.py:97-128 | the protocol can succeed |
| StopPoints.ReadFdObserved | scripts/live-gates/a19_interrupt_observation.py:14-31 | true exactly when some name line is the staged disk and the latest process, descriptor and access records before it are the helper, a number, and read only, in that order |
| StopPoints.FramedInjective | scripts/live-gates/a19_interrupt_stop_points.py:29-36 | two lists of names feed the digest the same bytes only if they are the same list |
| StopPoints.FramedFirst | scripts/live-gates/a19_interrupt_stop_points.py:31-35 | eight bytes of length, the value, and so on for the next |
| Auxiliary.DriftKeeps | scripts/live-gates/a19_interrupt_auxiliary_io.py:131-166 | whatever processes do, a vacant group stays vacant and a reaped leader reaped |
| Auxiliary.VacancyIsFinal | scripts/live-gates/a19_interrupt_auxiliary_io.py:131-166 | once every group is vacant none ever holds a process again |
| Auxiliary.VacancyIsReachable | scripts/live-gates/a19_interrupt_auxiliary_io.py:131-166 | any group can become vacant |
| Auxiliary.Child.Wait | scripts/live-gates/a19_interrupt_auxiliary_io.py:156-156 | reaps the leader, times out or is interrupted; a leader reaped elsewhere counts as exit status 0 |
| Auxiliary.PollAfterTerm | scripts/live-gates/a19_interrupt_auxiliary_io.py:145-151 | the grace period asks on after every answer that the group is there, ends at the first other one, and only an interrupt leaves; it changes nothing that was proved |
| Auxiliary.ProveAbsent | scripts/live-gates/a19_interrupt_auxiliary_io.py:157-166 | true exactly if the first answer but that the group is there says that there is none, and then the group is vacant |
| Auxiliary.Escalate | scripts/live-gates/a19_interrupt_auxiliary_io.py:142-155 | SIGCONT, SIGTERM, the grace period and SIGKILL in this order; only an interrupt cuts it short |
| Auxiliary.StopGroup | scripts/live-gates/a19_interrupt_auxiliary_io.py:131-166 | a normal return proves the group absent after its leader was reaped; a leader not yet reaped costs exactly SIGCONT, SIGTERM, SIGKILL in this order, and no signal goes to a group whose leader was reaped here |
| Auxiliary.Commands.Run | scripts/live-gates/a19_interrupt_auxiliary_io.py:175-196 | the flag is never set again; while it is set and no interrupt slipped past the cleanup, every group launched so far is vacant; success means that the helper exited by itself with status 0, or was reaped elsewhere, that no signal was sent and its group is vacant, and leaves the flag |
| Auxiliary.Commands.CleanUp | scripts/live-gates/a19_interrupt_auxiliary_io.py:185-193 | the flag falls for an unknown child and for every exception of stop_group |
| Auxiliary.SlippedInterrupt | scripts/live-gates/a19_interrupt_auxiliary_io.py:185-190 | the reservation is needed: an interrupt between entering the finally block and its inner try leaves the flag set and the helper alive, and the media tree is removed under it |
| Auxiliary.RunCase | scripts/live-gates/a19_interrupt_auxiliary.py:35-85 | a case keeps the guarantee, ends well only after each of its commands succeeded and every check behind them and at its end passed, and clears the flag only by a failing one |
| Auxiliary.Decide | scripts/live-gates/a19_interrupt_auxiliary.py:132-137 | the tree is touched, even in part, only with the flag set and, unless an interrupt slipped by, with no process left in any group now or after any later moves; it is fenced exactly when the flag is down and the marker gets written |
| Auxiliary.Run | scripts/live-gates/a19_interrupt_auxiliary.py:106-137 | no part of the media tree is removed unless the flag is set and, when no interrupt slipped past a cleanup, no process of any group is left, now or after any later moves; an unverified cleanup leaves the whole tree, fenced unless the marker cannot be written; it ends well only with seventeen commands run, all checks passed, the tree gone and no such interrupt |
| Receipt.LinesAppend | scripts/snapshot-restore-channel.py:16-22 | later bytes extend the partial record and nothing before it |
| Receipt.Parser.Feed | scripts/snapshot-restore-channel.py:16-37 | the buffer, output and mode after a chunk, and the answer, are those of the specification |
| Receipt.AnswerSplit | scripts/snapshot-restore-channel.py:16-37 | a prefix either settles the outcome of the whole or leaves exactly what the rest needs |
| Receipt.ChunkingIrrelevant | scripts/snapshot-restore-channel.py:16-37 | any chunking of a stream gives the same outcome as feeding it whole: result, still waiting, or refusal |
| Receipt.LongRecordRefused | scripts/snapshot-restore-channel.py:23-24 | a partial record over the limit is refused whatever follows it |
| Receipt.StripExactly | scripts/snapshot-restore-channel.py:20-20 | what is stripped is carriage returns, and all of them |
| Receipt.MarkerExactly | scripts/snapshot-restore-channel.py:31-31 | the three beginnings that interrupt a receipt |
| Receipt.ResultIsTranscript | scripts/snapshot-restore-channel.py:16-37 | a result is exactly the stripped lines between the first matching header and the first END behind it, for every stream |
| Receipt.RefusedExactly | scripts/snapshot-restore-channel.py:16-37 | a stream is refused exactly when a record before the header is too long, when the first line behind the output is too long, a marker, or one line of output too many, or when the partial record is too long and there is no result |
| Receipt.PrintedIsRead | crates/bridgevm-hvf/examples/hvf_gic_boot_probe/agent_console/output_finish.rs:19-22 | what the agent console prints for a command that exited with 0 is read back as its output, for every command and every output without lines that look like its own |
| Receipt.FailureHasNoResult | crates/bridgevm-hvf/examples/hvf_gic_boot_probe/agent_console/output_finish.rs:19-22 | for any other exit code there is no result |
| Receipt.Exchange | scripts/snapshot-restore-channel.py:40-63 | which arguments and which preexisting log are refused before anything is sent; the outcome of all reads before the deadline; a truncated log is an error only while no outcome is settled |
| DiskPattern.MixBijective | scripts/render-hvf-nvme-workload-v2.py:464-469 | the 64-bit mixer has an inverse on both sides |
| DiskPattern.MixInjective | scripts/render-hvf-nvme-workload-v2.py:464-469 | so different words mix to different words |
| DiskPattern.SeedInjective | scripts/render-hvf-nvme-workload-v2.py:471-475 | below block 2^32 the seed determines tag and block; at 2^32 two pairs collide |
| DiskPattern.PatternsDiffer | scripts/render-hvf-nvme-workload-v2.py:471-486 | blocks of another tag or index differ in every complete word, for every injective mixer |
| DiskPattern.FillPattern | scripts/render-hvf-nvme-workload-v2.py:471-486 | fills the buffer in place with the pattern, for any length and any block index |
| DiskPattern.VerifyPattern | scripts/render-hvf-nvme-workload-v2.py:488-498 | succeeds exactly if the bytes read are the pattern of this tag and block |
| DiskPattern.VerifyAndHash | scripts/render-hvf-nvme-workload-v2.py:516-528 | succeeds exactly if every block verifies, and hashes exactly those bytes |
| DiskPattern.Run | scripts/render-hvf-nvme-workload-v2.py:568-689 | succeeds exactly on the canonical contract and a disk that returns every pass its own bytes; the comparison of the two integrity hashes cannot then fail |
| DiskPattern.ReadbackIsOwnWrite | scripts/render-hvf-nvme-workload-v2.py:665-689 | a verified readback holds no word written by another pass or for another block, for every injective mixer |
| DiskPattern.RunReadsItsOwnWrites | scripts/render-hvf-nvme-workload-v2.py:568-689 | of the shipped mixer and every run that succeeds: in each of its read passes, each aligned word of each of the 16384 blocks is what a write of some tag and block puts there exactly if these are the tag of the pass and that block |
| DiskPattern.FaithfulRuns | scripts/render-hvf-nvme-workload-v2.py:568-689 | a disk that keeps every write is accepted |
| DiskPattern.PassesHaveOwnTags | scripts/render-hvf-nvme-workload-v2.py:665-675 | the write passes have tags of their own, different from that of the precondition |
| DiskPattern.TagsSpelled | scripts/render-hvf-nvme-workload-v2.py:225-226 | the tags in ASCII: BVP1, and BVW0 to BVW3 |
| DiskPattern.LittleEndian | scripts/render-hvf-nvme-workload-v2.py:478-483 | a word is stored least significant byte first |
| DiskPattern.KnownWords | scripts/render-hvf-nvme-workload-v2.py:464-486 | the first two words of the first and of the last block written |
| DiskPattern.FileSize | scripts/render-hvf-nvme-workload-v2.py:579-590 | 16384 blocks of 128 KiB make 2048 MiB |
| Archive.CheckRun | scripts/experiment_retention.py:64-105 | the row loop against its specification: the inputs of a run that passes every check, or none |
| Archive.MakePlan | scripts/experiment_retention.py:108-173 | the plan is exactly the one the file system holds, or there is none; see RetentionPlan.PlanExactly |
| RetentionPlan.PlanExactly | scripts/experiment_retention.py:64-173 | plan gives a plan exactly if there is one: its runs are the jobs of the campaign, each with all checks of its records; its targets their disks but the first; preserved is every file of every run but its disk, with its digest, and nothing else; twenty ordinals; no target is an input or declared by any manifest; and it is then the only one |
| RetentionPlan.RowsExactly | scripts/experiment_retention.py:88-100 | the recorded inputs are those of the rows with three columns, each name once, with a well-formed digest and an existing regular file |
| RetentionPlan.IntactKeepsEvidence | scripts/archive-experiment.py:64-65 | checking the preserved files checks every file of every run but its disk |
| Retention.JobsSelect | scripts/experiment_retention.py:113-144 | the targets are, in order and once each, the disks of the runs marked for deletion, each a regular file with one name; preserved digests are those of the files |
| Retention.PlanSelects | scripts/experiment_retention.py:29-32 | the same of a whole plan, and no target is listed twice |
| Retention.TargetsSpare | scripts/experiment_retention.py:132-150 | removing targets touches no first run and nothing any run was started from |
| Retention.NothingElseIsLost | scripts/experiment_retention.py:108-173 | cut off after any number of removals, no first disk, preserved file or recorded input and nothing else but the removed targets has lost its content |
| Retention.DeclaredInputsSurvive | scripts/experiment_retention.py:151-170 | nor has any file that an input manifest of this or another campaign declares, under whatever name |
| Retention.Replan | scripts/experiment_retention.py:108-173 | planning again after any number of removals succeeds and gives the same plan with those targets marked as done |
| Retention.ResumesExactly | scripts/archive-experiment.py:66-68 | the plan made then holds exactly the targets that are left and the same preserved map; after completion it holds none |
| Retention.OneDiskRemains | scripts/experiment_retention.py:131-146 | with all targets gone, the disk of exactly one run is left, that of the first, and it is not the image that run was started from; no ordinal occurs twice |
| Archive.Queue.Announce | scripts/archive-experiment.py:57-61 | a target must be found exactly as planned before its intent is synced; what is found altered was altered by another program |
| Archive.Queue.Unlink | scripts/archive-experiment.py:62-63 | removes that path only, then records it; refused, it removes nothing |
| Archive.Queue.RemoveOne | scripts/archive-experiment.py:57-63 | one turn of the removal loop keeps the account of the journal and of the removed targets |
| Archive.Queue.RemoveAll | scripts/archive-experiment.py:57-63 | so does the loop, cut off anywhere |
| Archive.Queue.Finish | scripts/archive-experiment.py:64-73 | completion is reported only if every preserved file has its digest and a fresh plan has no targets; otherwise the queue was busy, a write failed, the run was cut off, or another program altered something |
| Archive.Queue.ApplyPlan | scripts/archive-experiment.py:36-73 | whatever happens and whenever it is cut off: only targets of the reviewed plan are gone, in order, each found as planned when its turn came and after its synced intent; a held lock stops it before anything, and the lock it took is left exactly by a crash; it finds something altered only if another program altered it; completion means that all the evidence of all runs still has its digest |
| Archive.IntentsComeFirst | scripts/archive-experiment.py:52-63 | from the journal alone: every removed target is named by an intent, and every recorded removal happened |
| Campaign.NeighboursSuffice | scripts/hvf_boot_performance_report.py:286-290 | comparing each run with its predecessor makes any two runs disjoint in time |
| Campaign.OrdinalsInOrder | scripts/hvf_boot_performance_report.py:276-285 | sorted ordinals are 1..N exactly if the sorted runs carry them one by one |
| Campaign.CodeAgrees | scripts/hvf_boot_performance_report.py:276-315 | the checks of the code hold exactly of the well-run campaigns |
| Campaign.CheckNumbers | scripts/hvf_boot_performance_report.py:106-109 | an even number of at least six runs, an ordinal among them, and a positive time between start and end |
| Campaign.Check | scripts/hvf_boot_performance_report.py:253-272 | the first loop: the valid runs, and whether every attempt was one |
| Campaign.CheckOrder | scripts/hvf_boot_performance_report.py:286-290 | the loop over runs and predecessors |
| Campaign.LoadCampaign | scripts/hvf_boot_performance_report.py:248-316 | an accepted campaign of any size is well run (exact cover, one baseline and one candidate in every pair, disjoint runs, comparable builds), and every set of attempts that some order makes well run is accepted in that order |
| Campaign.LookupsAreTotal | scripts/hvf_boot_performance_report.py:343-347 | both lookups succeed in every pair and give its two different runs |
| Campaign.LoadBoth | scripts/hvf_boot_performance_report.py:364-384 | two sets of attempts are comparable exactly if some orders make both well run, with no job in both, the same common fields and the same first build |
| Campaign.PairedDeltas | scripts/hvf_nvme_performance_report.py:457-467 | the loop computes, for either direction of a metric, the delta of every pair from its own two runs |
| Campaign.DeltaGains | scripts/hvf_nvme_performance_report.py:457-467 | a delta is the percentage of the baseline that is gained, in either direction |
| Campaign.Analyze | scripts/hvf_boot_performance_report.py:364-390 | two sets of attempts are compared exactly if some orders make both well run and the campaigns comparable; the two intervals resample the paired deltas of those campaigns; the noise is the least bound of the AA interval; the claim is made exactly if the whole AB interval lies below the AA interval and its mirror image, so only if some candidate beat its own baseline by more than the noise, and whenever all did |
| Campaign.BaselineMatchesExactlyWhenFirst | scripts/hvf_boot_performance_report.py:378-383 | the AB baseline is the AA build exactly if the AB campaign starts with a baseline run |
| Campaign.MismatchedBaselinesAccepted | scripts/hvf_boot_performance_report.py:378-383 | the report run on two sets of attempts it accepts, though their baselines differ |
| Campaign.ScheduleAlternates | scripts/hvf_nvme_performance_report.py:174-175 | the role formula pairs the runs, and pairs start with the baseline and the candidate in turn |
| Campaign.HalfBaselineFirst | scripts/hvf_nvme_performance_report.py:202-205 | with a multiple of four runs exactly half of the pairs start with the baseline |
| Campaign.DriftCancels | scripts/hvf_nvme_performance_report.py:174-175 | and a steady drift of the machine cancels out of the comparison |
| Sorting.SortSorts | scripts/hvf_boot_performance_report.py:319-321 | sorted output, same elements |
| Sorting.KeysOfSort | scripts/hvf_boot_performance_report.py:283-285 | sorting by a key sorts the keys |
| Statistics.PercentileRanks | scripts/write-hvf-nvme-performance-v2-receipt.py:239-241 | the percentile is a value of the list; at least ceil(q n) values do not exceed it and fewer lie below it |
| Statistics.PercentileIsLeast | scripts/write-hvf-nvme-performance-v2-receipt.py:239-241 | it is the least value that a q share of the values does not exceed |
| Statistics.PercentileMonotone | scripts/write-hvf-nvme-performance-v2-receipt.py:239-241 | it grows with the quantile |
| Statistics.SummariesPass | scripts/hvf_nvme_performance_report.py:288-291 | no summary the writer makes fails the order check of the reporter |
| Statistics.SummaryMeans | scripts/write-hvf-nvme-performance-v2-receipt.py:244-246 | count, the three percentiles in percent of the values, and the maximum of a latency summary |
| Statistics.MedianIsMiddle | scripts/hvf_boot_performance_report.py:324-329 | the median is the middle value, or half way between the two middle values |
| Statistics.IntervalMeans | scripts/hvf_boot_performance_report.py:324-329 | the estimate is the median of the deltas; the ends stand at places 249 and 9749 of the resampled medians |
| Statistics.MedianWithin | scripts/hvf_boot_performance_report.py:324-329 | every bound of the values bounds their median |
| Statistics.IntervalWithin | scripts/hvf_boot_performance_report.py:324-329 | whatever was drawn, the interval is ordered and every bound of the deltas bounds it |
| Statistics.IntervalCovers | scripts/hvf_boot_performance_report.py:326-329 | the interval holds at least 9501 of the 10000 resampled medians, and at most 249 lie below it |
| Statistics.NoiseWithin | scripts/hvf_boot_performance_report.py:370-370 | the noise bound is not negative and at most any bound on the size of the AA deltas |
| Statistics.NoiseIsLeastBound | scripts/hvf_boot_performance_report.py:370-370 | the noise bounds the AA interval in both directions, and no smaller number does |
| Statistics.ExceedsExactly | scripts/hvf_boot_performance_report.py:388-390 | the AB claim holds exactly if every change its interval allows is faster than any the AA interval allows in either direction |
| Statistics.MetricPassesExactly | scripts/hvf_nvme_performance_report.py:520-525 | the primary and the guardrail rule, said of the two intervals |
| Statistics.ExceedsSoundly | scripts/hvf_boot_performance_report.py:388-390 | the AB claim holds if every delta beats the noise, and only if some delta does |
| Statistics.MetricPassesSoundly | scripts/hvf_nvme_performance_report.py:520-525 | the same of the primary rule and of the guardrail rule |
| Ppm.NaturalOfDecimal | scripts/glyph_frame.py:31-31 | a printed number parses to itself under the rules of int() |
| Ppm.NaturalExactly | scripts/glyph_frame.py:31-31 | what int() takes for a number: digits with single underscores between them, and the value they mean |
| Ppm.IntExactly | scripts/glyph_frame.py:31-31 | and a sign before them |
| Ppm.ScanHeader | scripts/glyph_frame.py:13-30 | the header loop ends on every input with the fields of the specification, or refuses a truncated header or comment |
| Ppm.NextFieldExactly | scripts/glyph_frame.py:13-28 | the next field is the token behind blanks and comments, for every such gap and every token |
| Ppm.ParseExactly | scripts/glyph_frame.py:11-43 | a file loads as a frame exactly if it is the four tokens behind their gaps, one separator and the raster of that frame |
| Ppm.Load | scripts/glyph_frame.py:11-43 | the frame or the refusal of the specification, for every file; a frame exactly if the file holds it |
| Ppm.AssignStride | scripts/iosurface_capture.py:41-41 | a strided slice assignment changes every third byte and no other |
| Ppm.PpmFromBgra | scripts/iosurface_capture.py:38-42 | header and channel-swapped raster, or a refusal for a frame of the wrong length |
| Ppm.AfterHeader | scripts/glyph_frame.py:31-42 | behind a printed header, for every rest of the file: one blank byte separates; CRLF is one separator exactly if the length says so; all else is refused |
| Ppm.RoundTrip | scripts/glyph_frame.py:11-43 | loading what was printed gives back width, height and channel-swapped pixels, for every frame |
| Ppm.SeparatorsAgree | scripts/glyph_frame.py:35-39 | a lone CR and a CRLF in front of the same raster load the same frame, whatever its first byte |
| Mask.OffsetInside | scripts/verify-glyph-pixel-mask.py:34-34 | every pixel of a box that fits lies inside the frame |
| Mask.BoxOfFrame | scripts/build-glyph-pixel-mask.py:33-35 | pixel i of a box is the pixel of the frame in its column and row |
| Mask.LuminanceShares | scripts/build-glyph-pixel-mask.py:46-52 | the weights of the three colours in the luminance |
| Mask.SelectPicks | scripts/build-glyph-pixel-mask.py:38-54 | the selection is the 48 darkest and 16 lightest pixels, all in the box, none twice |
| Mask.SelectsExactly | scripts/build-glyph-pixel-mask.py:38-43 | a box is refused exactly if it does not lie in the frame or has fewer than 64 pixels |
| Mask.ContrastExactly | scripts/build-glyph-pixel-mask.py:38-54 | it has two colours exactly if the box holds two luminances, or its first 48 and last 16 pixels hold two colours |
| Mask.CountMismatches | scripts/verify-glyph-pixel-mask.py:56-57 | zero exactly if no selected pixel differs |
| Mask.CompareRegion | scripts/verify-glyph-pixel-mask.py:52-59 | a region matches exactly if it agrees in every capture |
| Mask.VerifyCell | scripts/verify-glyph-pixel-mask.py:37-62 | which evidence is accepted, and that a match is reported exactly if no selected pixel of any capture differs |
| Mask.Build | scripts/build-glyph-pixel-mask.py:68-83 | the mask of the selected pixels, refused only for a reference that does not load or a box that does not fit |
| Mask.ProposedIsUsable | scripts/verify-glyph-pixel-mask.py:21-34 | a proposed region passes every check but that on contrast, and that one exactly if the box shows contrast |
| Mask.ProposalRefused | scripts/verify-glyph-pixel-mask.py:21-34 | a box with two colours of one luminance whose proposed mask fails the check on contrast |
| Mask.SomeProposalIsRefused | scripts/verify-glyph-pixel-mask.py:21-34 | such a frame and box exist |
| Mask.ProposedIsAccepted | scripts/verify-glyph-pixel-mask.py:37-62 | so a mask proposed for boxes of two luminances is accepted with any three separate captures of the right size |
| Audio.ParseStats | scripts/audio-teardown-result.py:51-80 | accepts exactly the lines that say, field by field and in order, counters that reconcile |
| Audio.ReasonsAreStatuses | scripts/audio-teardown-result.py:28-34 | each typed reason belongs to one status, every other status is unclassified, and the expected statuses are those of the reasons in the expected total |
| Audio.ParseEvents | scripts/audio-teardown-result.py:83-127 | accepts exactly the logs whose events tell the truth and number what the counters say |
| Audio.FlagsAuthenticate | scripts/audio-teardown-result.py:62-127 | in an accepted log the events flagged expected number the expected total, the others the unexpected total, and both together all errors |
| Audio.TotalsReconcile | scripts/verify-audio-teardown-receipt.py:113-128 | the sums over any number of accepted lanes satisfy the equations of the receipt verifier |
| Audio.CleanTotalsMean | scripts/verify-audio-teardown-receipt.py:129-140 | the totals are clean exactly if every lane was quiet and some lane rendered a frame |
| Claim.CheckStages | scripts/verify-windows-product-e2e-receipt.py:203-208 | the last count of a chain that never rises, or a refusal |
| Claim.Squeezed | scripts/verify-windows-product-e2e-receipt.py:203-208 | a chain that ends at the run count is constant |
| Claim.CheckShared | scripts/verify-windows-product-e2e-receipt.py:170-226 | the checks both journey verifiers make before they compute their verdicts |
| Claim.ValidateT17 | scripts/verify-windows-product-e2e-receipt.py:150-254 | accepts exactly the sound receipts whose pass and claim are the computed ones; run totals and clock reconcile; a passing one has no failure and every stage counter at the number of runs; a release receipt claims exactly if it passed on a clean machine, notarized, with both named CI runs green, at the tested commit |
| Claim.ValidateT19 | scripts/verify-windows-import-product-e2e-receipt.py:40-87 | the same of the import journey; no accepted receipt claims anything |
| Claim.PassRulesAgree | scripts/verify-windows-import-product-e2e-receipt.py:77-82 | looking at the last stage and looking at every stage is the same rule |
| Claim.EligibleIffDeserved | scripts/a9-release-claim.py:197-238 | a built claim is eligible exactly if both journeys went three times through every stage, notarized, with both CI runs green and a clean host bound |
| Claim.BuildPassesItsOwnCheck | scripts/a9-release-claim.py:236-238 | the last check of build cannot refuse what build put together |
| Claim.MakeReceipt | scripts/a9-release-claim.py:215-238 | a receipt is made exactly if both journeys were accepted and tested at the commit and some receipt describes the inputs, and it is that receipt: host, macOS, app and executable both journeys share, each record copied, each CI run of its kind and commit and the one both journeys name, a clean host bound by its recorded digest, and the list of conditions that fail, in order |
| Claim.BuildsTheDescription | scripts/a9-release-claim.py:147-238 | build against that description, in both directions |
| Claim.UnmetIs | scripts/a9-release-claim.py:197-212 | the list of unmet conditions holds exactly those that fail on the inputs, each once and in order |
| Claim.EncodeIsClear | scripts/a9-release-claim.py:247-293 | no receipt document holds a truth value, 0 or 1 below a list |
| Claim.ReadsEncoded | scripts/a9-release-claim.py:247-293 | reading the document of a receipt gives the receipt back, so different receipts are different documents |
| Claim.VerifyReceipt | scripts/a9-release-claim.py:308-322 | verify on a supplied document: read, checked, built again, and compared by the first difference |
| Claim.VerifiedIsBuilt | scripts/a9-release-claim.py:308-322 | an accepted document is, field by field, what build derives from the same inputs |
| Claim.BuiltIsVerified | scripts/a9-release-claim.py:308-322 | and what build derives is accepted |
| Claim.VerifiedClaim | scripts/a9-release-claim.py:308-322 | the inputs of an accepted document that says eligible are of one commit, host, macOS version, app and executable, with the two CI runs both journeys name, each journey three times through all stages, on a host attested before both |
| Json.FirstDifference | scripts/a9-release-claim.py:296-305 | none exactly if the documents match: types down to the lists, Python equality inside them |
| Json.SameExactlyWhenClear | scripts/a9-release-claim.py:296-305 | for an expected document, no difference means the same document exactly if it holds no truth value, 0 or 1 below a list |
| Json.ListsConfuseTypes | scripts/a9-release-claim.py:296-305 | the shortest example: inside a list true passes for 1 |
| Worklist.PushAll | scripts/rust-distribution-packages.py:22-25 | pushes exactly the dependencies whose kinds are all normal or build |
| Worklist.ClosureCovers | scripts/rust-distribution-packages.py:15-25 | a set that holds the roots and is closed under such edges holds everything reachable |
| Worklist.Visit | scripts/rust-distribution-packages.py:18-25 | one turn keeps what was found reachable and complete up to the stack, and either finds more or shortens the stack |
| Worklist.Reach | scripts/rust-distribution-packages.py:15-25 | ends on every graph with exactly the reachable packages, or where Python raises KeyError because one of them has no node |

## Left out

- FatGeometry.Geometry: asks for a partition size on which the loop stops; on the others the source never returns, as the
  lemmas beside it prove.
- Receipt.PrintedIsRead: the label that stands for a redacted command, and the replacement of bytes that are no UTF-8, are
  not modelled.
- Receipt.ChunkingIrrelevant: does not tell refusals apart; which of its messages the parser raises for an oversized
  record depends on where the chunks end.
- DiskPattern.Run: leaves out all timing, the write and flush calls, aligned buffers, failed allocations and the Windows
  API; the disk is any answer to every read.
- DiskPattern.PatternsDiffer: speaks of complete eight-byte words; a trailing part of a word may agree by chance, and the
  shipped transfer has none.
- Auxiliary.Commands.Run: interrupts arrive inside calls, or at the two statement boundaries named `slip` and `again`;
  other boundaries between statements are not modelled, and neither is a caller's own clone function.
- Auxiliary.Run: a group's number is never given to another group of ours; that a foreign process may get it is why a
  vacant group may still answer a probe.
- Auxiliary.RunCase: a case is the number of its commands, each followed by checks whose findings are given; what the
  digests of the two cases are compared with is not modelled.
- RestoreProtocol.RunKeeps: only the helper changes the selection and the stage, and each check reads one of them in one
  step; the polling clock is a choice at every turn.
- Archive.Queue.ApplyPlan: an unlink is durable at once, and a journal record is either durable or absent, also when
  its write raises; a target is removed by name, so a file another program puts there between check and
  removal goes with it.
- Retention.NothingElseIsLost: a symbolic link is given with the path it finally leads to; links to directories, and the
  check for them, are not modelled.
- Campaign.Analyze: a report on AA runs alone, which makes no claim, is not modelled; numbers are exact reals and the
  random draws are any draws; the floating-point rounding of rates and of `ceil(quantile * n)` is not modelled.
- Campaign.LoadCampaign: one number stands for all common identity fields, and a refused attempt is one with nothing to
  read; the storage report's registry, nonce and script checks are not modelled.
- Ppm.Load: `int()` refuses very long digit strings in Python; the model has no such limit.
- Json.FirstDifference: does not say which of several differences is named; JSON floats are not modelled.
- Claim.ReadsEncoded: the strings of a receipt are typed tokens; the checks of their formats are not modelled.
- Claim.ValidateT17: formats of identifiers, digests and time stamps are taken as given, and times are whole seconds.
- SHA-256 and CRC-32 are functions nothing is assumed of; JSON, CSV, plist and environment files are typed documents.
- lsof, real descriptors, symbolic links in job directories, clocks and free-space counts.
- Command lines, self-tests, fixtures, Markdown, Swift and PowerShell rendering, and review images.
- Sums of artifact counters and the HID checks of the storage receipt writer: one-branch equations with nothing between
  them.
- The staging and selection paths of the stop points, beyond the name of the pair's root: expressions on paths.
- The Rust VMM, but for the lines its agent console prints, and the Swift app are not part of this model.
