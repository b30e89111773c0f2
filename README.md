# devkit-disks device engine, modelled in Dafny

This project models the per-device engine of the devkit-disks daemon
(`src/devkit-disks-device.c`): how a block device is probed and classified,
and the string and path rules it relies on. It covers:

- **Object paths.** The D-Bus object path of a device is the basename of its
  sysfs path with every `-` replaced by `_`, under `/devices/`
  (`compute_object_path_from_basename`, `compute_object_path`).
- **Probe and classify (`update_info`).**
  - The info record is reset (`free_info`, `init_info`).
  - Sysfs gives the drive and removable flags, the size in 512-byte blocks
    and, for a device with a `start` attribute, the partition facts. These
    are its offset and size, its number (from the trailing digits of the
    native path) and its slave (from the parent directory).
  - When the device-info library resolves the device, its device file,
    symlinks and properties are folded in by `update_info_symlinks_cb` and
    `update_info_properties_cb`.
- **Device lifecycle.** Device creation (`devkit_disks_device_new`), the
  "changed" refresh, and the mount-state setters, which each emit one
  "changed" signal.
- **Enumeration.** `devkit_disks_enumerate_native_paths` lists the block
  devices of sysfs, skips ram disks, optionally descends into partitions and
  sorts with `strcmp`.

The model has one module per concern:

- `CStrings`: the C/GLib string primitives: prefix tests, `atoi`/`strtol` on
  digits, `"%d"`, and the `strcmp` order.
- `ObjectPaths`: `g_path_get_basename` and the object-path derivation, with
  its in-place sanitizing loop on an `array<char>`.
- `NativePaths`: the two index loops of `update_info` over the native path:
  the trailing-digit scan, and the truncation to the parent directory on an
  `array<char>`.
- `Sysfs`: the attribute reads and the `guint64` arithmetic.
- `DeviceInfo`: the info record as a datatype, and the specification
  functions of the two callbacks and of `update_info`.
- `Device`: the device object as a class. Its `info` field is the record and
  its `emitted` field logs the "changed" signals. Each callback is a method
  proved equal to the function that specifies it.
- `Enumerate`: the enumerator over an abstract directory tree. The loops
  prepend to a list, as the source does, and the result is sorted by an
  insertion sort that stands in for `g_list_sort`.

Sysfs is a map from attribute names to the number read from each. The
device-info library's answer is an `Option` of (device file, symlinks,
properties). The file system the enumerator sees is a record of directory
listings and `realpath` results.

## Model

| member | source | states |
|---|---|---|
| CStrings.Strtol | src/devkit-disks-device.c:780-783 | `strtol` from index 6 of a key returns the end of the leading digit run and the decimal value of that run |
| CStrings.LeadingDigitCount | src/devkit-disks-device.c:782 | the run `strtol` consumes is all digits, and the character after it is not a digit |
| CStrings.DecimalRoundTrip | src/devkit-disks-device.c:902 | reading back the `"%d"` rendering of a number gives the number |
| CStrings.Strcmp | src/devkit-disks-device.c:1051 | the sign of `strcmp` on two strings, compared character by character, is -1, 0 or 1 |
| CStrings.StrcmpZero | src/devkit-disks-device.c:1051 | `strcmp` answers 0 exactly for equal strings |
| CStrings.StrLeqTotal | src/devkit-disks-device.c:1051 | the `strcmp` order relates any two strings one way or the other |
| CStrings.StrLeqAntisymmetric | src/devkit-disks-device.c:1051 | strings ordered both ways by `strcmp` are equal |
| CStrings.StrLeqTransitive | src/devkit-disks-device.c:1051 | the `strcmp` order is transitive |
| ObjectPaths.PathBasename | src/devkit-disks-device.c:576 | `g_path_get_basename` gives ".", "/", or a non-empty name without '/' |
| ObjectPaths.PathBasenameIdempotent | src/devkit-disks-device.c:585-596 | taking the basename twice, as `compute_object_path` does, equals taking it once |
| ObjectPaths.SanitizeInPlace | src/devkit-disks-device.c:577-579 | the loop over the buffer leaves it equal to the original with every '-' replaced by '_' |
| ObjectPaths.ComputeObjectPathFromBasename | src/devkit-disks-device.c:565-583 | the result is the object path of its argument |
| ObjectPaths.ComputeObjectPath | src/devkit-disks-device.c:585-596 | the result is the object path of the native path itself |
| ObjectPaths.ObjectPathShape | src/devkit-disks-device.c:565-583 | the object path (`ObjectPathOf`) is "/devices/" followed by the basename with each '-' replaced by '_', or "/devices/" alone when the basename is "/"; so it starts with "/devices/" and holds no '-' after it |
| ObjectPaths.ObjectPathOfName | src/devkit-disks-device.c:576-580 | for a name without '/', the object path is "/devices/" followed by the sanitized name |
| ObjectPaths.ObjectPathValid | src/devkit-disks-device.c:572-580 | a name made only of `[A-Za-z0-9_-]` gets an object path that is valid under the D-Bus Specification |
| ObjectPaths.ObjectPathInvalid | src/devkit-disks-device.c:572-580 | any other name without '/', the empty name included (it becomes "/devices/."), gets an invalid object path: the sanitizer repairs '-' only |
| ObjectPaths.ObjectPathCollision | src/devkit-disks-device.c:577-580 | a name and its sanitized form share one object path, and they differ when the name holds a '-' |
| ObjectPaths.ObjectPathsDistinct | src/devkit-disks-device.c:580 | names whose sanitized basenames differ get different object paths |
| ObjectPaths.SanitizedSlashes | src/devkit-disks-device.c:577-579 | sanitizing neither adds nor removes a '/' |
| NativePaths.TrailingDigitsStart | src/devkit-disks-device.c:900-901 | the backward scan stops where the maximal trailing run of digits begins |
| NativePaths.TrailingRunUnique | src/devkit-disks-device.c:900-901 | that maximal run begins at exactly one index |
| NativePaths.PartitionNumberOf | src/devkit-disks-device.c:899-902 | the loop and `atoi` give the value of the maximal trailing run of digits, or 0 when there is none |
| NativePaths.TrailingNumberOfName | src/devkit-disks-device.c:899-902 | a kernel partition name, a name not ending in a digit followed by `"%d"` of n, has partition number n |
| NativePaths.SlaveCutIndex | src/devkit-disks-device.c:904-907 | as written, the truncation loop stops at the last '/', or at -1 when there is none |
| NativePaths.SlaveCutUnderflow | src/devkit-disks-device.c:905-907 | as written, a native path without '/' ("sda1") makes the loop write at index -1 |
| NativePaths.ParentDir | src/devkit-disks-device.c:904-907 | the parent directory is a prefix of the path |
| NativePaths.ParentDirAgrees | src/devkit-disks-device.c:904-907 | wherever the loop as written stays in bounds, it cuts where `ParentDir` does |
| NativePaths.ParentDirectory | src/devkit-disks-device.c:904-907 | clearing the buffer from the end up to its last '/' leaves the parent directory |
| NativePaths.SlaveCutIsLastSlash | src/devkit-disks-device.c:905 | the index where the loop stops is the position of the last '/' |
| NativePaths.ParentDirOfJoin | src/devkit-disks-device.c:904-907 | the parent directory of dir + "/" + name is dir |
| NativePaths.BasenameOfJoin | src/devkit-disks-device.c:908 | the basename of dir + "/" + name is name |
| NativePaths.PartitionOfDisk | src/devkit-disks-device.c:899-911 | the partition at dir/disk/disk<n> has number n and the disk's object path as its slave |
| Sysfs.ToInt32 | src/devkit-disks-device.c:650 | the `int` a `guint64` becomes on return lies in the 32-bit range and keeps the low 32 bits |
| Sysfs.GetUint64 | src/devkit-disks-device.c:650-665 | corrected read: the attribute's value when present and in range, and 0 when it is absent |
| Sysfs.GetUint64AsWritten | src/devkit-disks-device.c:650-665 | as written, the result is the low 32 bits of the `guint64`, read as a signed 32-bit `int`; the byte count built from it (`AttributeBytesAsWritten`, src 882-883) converts that `int` back to `guint64` before the product by 512 |
| Sysfs.SectorsToBytes | src/devkit-disks-device.c:881-883 | the `guint64` product by the block size is sectors × 512 when it does not wrap |
| Sysfs.AttributeBytes | src/devkit-disks-device.c:882-897 | a sector-count attribute in bytes: 0 when it is absent, value × 512 when it is in range |
| Sysfs.AsWrittenAgreesBelowTwoTo31 | src/devkit-disks-device.c:650-665 | below 2^31 sectors, the byte counts as written and corrected agree |
| Sysfs.SizeTruncationExample | src/devkit-disks-device.c:882-883 | a disk of 2^31 sectors is, as written, given 2^64 - 2^40 bytes instead of 2^40 |
| Sysfs.GetInt | src/devkit-disks-device.c:631-683 | `sysfs_get_int` gives the number read when the attribute file exists (`FileExists`, which is `sysfs_file_exists`) and 0 otherwise |
| DeviceInfo.EmptyInfo | src/devkit-disks-device.c:718-727 | the record `init_info` clears is unmounted, neither a partition, a partition table nor a drive, not removable and without media; it has no device file, links, flags or table entries, every id and drive field and every partition and table string is NULL, and every size, number and count is 0 |
| DeviceInfo.LinkBucketsDisjoint | src/devkit-disks-device.c:847-851 | no symlink falls into both the by-id and by-path buckets |
| DeviceInfo.LinkBucketsMembership | src/devkit-disks-device.c:847-851 | a link is in a bucket exactly when it was fed and has that bucket's prefix |
| DeviceInfo.SymlinkBuckets | src/devkit-disks-device.c:842-854 | folding the symlinks one by one through `ApplySymlink` (the callback) appends the by-id and by-path links, in feed order, to their buckets; other links are dropped and the device file is kept |
| DeviceInfo.ParsePartKey | src/devkit-disks-device.c:780-783 | a parsed key starts with "PART_P" and a digit, and its suffix is a tail of the key that starts with '_' |
| DeviceInfo.PartKeyRoundTrip | src/devkit-disks-device.c:780-783 | "PART_P" + `"%d"` of n + a '_' suffix parses back to n and that suffix |
| DeviceInfo.PartKeyIsNoFixedKey | src/devkit-disks-device.c:743-780 | a "PART_P" key is none of the fixed keys tested before it |
| DeviceInfo.Zeros | src/devkit-disks-device.c:804 | growing a cleared `GArray` adds zeros |
| DeviceInfo.GrowAndSet | src/devkit-disks-device.c:803-806 | the array grows to index + 1 if needed, holds the value at index, keeps the other elements and pads with 0 |
| DeviceInfo.TableIndexAsWritten | src/devkit-disks-device.c:798-801 | as written, the unsigned index is n - 1 for 1 ≤ n ≤ 2^32 and always below 2^32 |
| DeviceInfo.TableLengthAsWritten | src/devkit-disks-device.c:804 | as written, the new length never shrinks the array and is max(n, len) for 1 ≤ n < 2^32 |
| DeviceInfo.PartZeroWritesPastEnd | src/devkit-disks-device.c:798-805 | as written, "PART_P0_OFFSET" gives index 2^32 - 1, leaves the length as it was and stores past the end |
| DeviceInfo.TableStoreAgrees | src/devkit-disks-device.c:798-805 | for 1 ≤ n < 2^32, the computation as written is `GrowAndSet` at n - 1 |
| DeviceInfo.TableStore | src/devkit-disks-device.c:803-806 | corrected store: for n ≥ 1 the array is at least n long, holds the value at n - 1 and keeps every other element; n = 0 changes nothing |
| DeviceInfo.ApplyTableKey | src/devkit-disks-device.c:785-806 | the highest partition number becomes max(n, old); an "_OFFSET" or "_SIZE" key stores into its own array only; other suffixes store nothing |
| DeviceInfo.ApplyOwnPartKey | src/devkit-disks-device.c:808-829 | "_LABEL", "_UUID" and "_TYPE" set the label, uuid and type to the string; "_OFFSET" and "_SIZE" set the offset and size to the number; "_FLAGS" appends the list to the flags; each changes that field and no other; any other suffix changes nothing |
| DeviceInfo.ApplyPartKey | src/devkit-disks-device.c:785-831 | a non-partition records a table entry; the partition numbered n records its own data; any other partition is unchanged; the device file, links, device, id and drive facts are never touched |
| DeviceInfo.ApplyIdKey | src/devkit-disks-device.c:743-752 | an "ID_FS_*" key sets its own identity field to the value and leaves the other four |
| DeviceInfo.ApplyDriveKey | src/devkit-disks-device.c:754-765 | a drive key sets its field only on a drive whose field is unset, and leaves the other drive fields |
| DeviceInfo.ApplyPartitionKey | src/devkit-disks-device.c:768-832 | "PART_SCHEME" sets the scheme of a partition, or on any other device sets the table flag and the table scheme; "PART_COUNT" sets the table count to the number; a "PART_P<n>_..." key is `ApplyPartKey` when it parses and changes nothing otherwise; so the table flag is raised only by "PART_SCHEME" on a non-partition; number and slave are kept; offset and size change only for the partition's own number; the table arrays and max number only grow |
| DeviceInfo.ApplyProperty | src/devkit-disks-device.c:738-840 | an "ID_FS_*" key is `ApplyIdKey` on the identity, a drive key `ApplyDriveKey` on the drive fields, a "PART_*" key `ApplyPartitionKey`, "MEDIA_AVAILABLE" sets media-available to the boolean on a removable device only; the identity changes only for "ID_FS_*" keys; any other key changes nothing |
| DeviceInfo.KeyFamiliesDisjoint | src/devkit-disks-device.c:743-837 | no key is tested by two branches of the callback, so the order of the tests does not matter |
| DeviceInfo.ApplyPropertyFrame | src/devkit-disks-device.c:738-840 | one property keeps the files and sysfs facts, raises the table flag only for "PART_SCHEME" on a non-partition, changes media-available only for "MEDIA_AVAILABLE" on a removable device, changes a drive field only on a drive when unset, changes offset and size only for the partition's own number, and only grows the table arrays |
| DeviceInfo.PartTableStep | src/devkit-disks-device.c:785-806 | on a non-partition, "PART_P<n>_OFFSET"/"_SIZE" (n ≥ 1) leaves that array at least n long with the value at n - 1, the other elements and array unchanged, and max number ≥ n |
| DeviceInfo.FoldInvariants | src/devkit-disks-device.c:738-840 | folding a property list in feed order (`FoldProperties`) keeps the files and sysfs facts; the table flag is raised exactly when a "PART_SCHEME" key reaches a non-partition; the table only grows; a non-drive keeps its drive fields |
| DeviceInfo.ExclusiveClassification | src/devkit-disks-device.c:768-777 | the fold never makes a device both a partition and a partition table |
| DeviceInfo.PartTableCoverage | src/devkit-disks-device.c:785-806 | after the whole fold, every "PART_P<n>_*" key of a non-partition left max number ≥ n and its array at least n long |
| DeviceInfo.FirstValueAppend | src/devkit-disks-device.c:754-765 | a later property changes the first value of a key only when there was none |
| DeviceInfo.DriveFieldStep | src/devkit-disks-device.c:754-765 | one property fills a drive field only on a drive, when the field is unset and the key is its own |
| DeviceInfo.DriveFirstWriterWins | src/devkit-disks-device.c:754-765 | after the fold, a drive field holds the first value fed for its key if the device is a drive and the field was unset, else its old value |
| DeviceInfo.ProbeBeforeProperties | src/devkit-disks-device.c:927-928 | after a reset, the files are the feed's device file and its by-id and by-path links |
| DeviceInfo.ProbeClassification | src/devkit-disks-device.c:856-936 | for the record update_info leaves (`ProbeInfo`: the sysfs facts `BlockFacts`, then `ApplyFeed` of a resolved feed): partition exactly when "start" exists; partition table exactly when not one and a "PART_SCHEME" key is fed; never both; drive exactly when "device" exists; a fixed device has media available |
| DeviceInfo.ProbeGeometry | src/devkit-disks-device.c:880-911 | with the corrected 64-bit read of Findings row 1, device size is "size" × 512 and block size 512; a partition gets its trailing number and parent's object path as slave; any other device gets neither |
| DeviceInfo.PartitionGeometryKept | src/devkit-disks-device.c:820-825 | on a partition, only keys of its own number change its offset and size |
| DeviceInfo.ProbePartitionOffsets | src/devkit-disks-device.c:886-897 | a partition fed no keys of its own number has offset "start" × 512 and size "size" × 512 |
| DeviceInfo.ProbeUnmounted | src/devkit-disks-device.c:864-866 | update_info resets the mount state: the result is unmounted with no mount path |
| DeviceInfo.ProbeOneProperty | src/devkit-disks-device.c:921-929 | a feed with one property and no symlinks applies that property to the sysfs facts with the device file set |
| DeviceInfo.GptDiskScenario | src/devkit-disks-device.c:768-777 | a whole disk fed "PART_SCHEME=gpt" becomes a partition table with scheme "gpt" |
| DeviceInfo.OwnLabelStep | src/devkit-disks-device.c:808-813 | on the partition numbered n, "PART_P<n>_LABEL" sets its label and leaves it a partition numbered n |
| DeviceInfo.OwnLabelScenario | src/devkit-disks-device.c:808-813 | partition n of a disk, fed "PART_P<n>_LABEL", is a partition numbered n with that label |
| Device.Device.constructor | src/devkit-disks-device.c:538-542 | a new device has the cleared record, no object path, no signals, and is valid |
| Device.Device.EmitChanged | src/devkit-disks-device.c:965-974 | one "changed" signal carrying the object path is appended to the log |
| Device.Device.UpdateInfoSymlinksCb | src/devkit-disks-device.c:842-854 | the record becomes `ApplySymlink` of it: a by-id or by-uuid link is appended to the by-id bucket, a by-path link to the by-path bucket, any other is dropped |
| Device.Device.UpdateInfoAddPtr | src/devkit-disks-device.c:730-736 | the string is appended to the partition flags and nothing else changes |
| Device.Device.StoreTableEntry | src/devkit-disks-device.c:785-806 | the table becomes `ApplyTableKey` of it; nothing else changes |
| Device.Device.StoreOwnPartEntry | src/devkit-disks-device.c:808-829 | the partition facts become `ApplyOwnPartKey` of them; flags are appended one by one |
| Device.Device.StoreIdProperty | src/devkit-disks-device.c:743-752 | the identity becomes `ApplyIdKey` of it |
| Device.Device.StoreDriveProperty | src/devkit-disks-device.c:754-765 | the drive facts become `ApplyDriveKey` of them |
| Device.Device.StorePartitionProperty | src/devkit-disks-device.c:768-832 | the record becomes `ApplyPartitionKey` of it, with n read by `strtol` |
| Device.Device.UpdateInfoPropertiesCb | src/devkit-disks-device.c:738-840 | the record becomes `ApplyProperty` of it, and validity is preserved |
| Device.Device.UpdateInfoFromSysfs | src/devkit-disks-device.c:864-919 | the record becomes `BlockFacts` of the native path: the cleared record with the drive, removable, media, size and partition facts read from sysfs (sizes through the corrected read) |
| Device.Device.UpdateInfoFromFeed | src/devkit-disks-device.c:927-929 | the record becomes `ApplyFeed` of it: the facts with the feed's device file, symlinks and properties folded in |
| Device.Device.UpdateInfo | src/devkit-disks-device.c:856-936 | succeeds exactly when the feed resolves; the record becomes `ProbeInfo` and is valid |
| Device.Device.Changed | src/devkit-disks-device.c:976-982 | refreshes the record and emits one "changed" exactly when the refresh succeeds |
| Device.Device.SetMounted | src/devkit-disks-device.c:1095-1102 | only the mounted flag and mount path change, to true and the path; exactly one "changed" is emitted |
| Device.Device.SetUnmounted | src/devkit-disks-device.c:1104-1111 | only the mounted flag and mount path change, to false and none; exactly one "changed" is emitted |
| Device.DeviceNew | src/devkit-disks-device.c:938-963 | null exactly when update_info fails; otherwise a fresh valid device with the probed record, registered under the object path of its native path |
| Device.MountThenUnmount | src/devkit-disks-device.c:1095-1111 | `SetMounted` then `SetUnmounted` on an unmounted device give back its record and emit two "changed" signals |
| Enumerate.PartitionEntriesMembership | src/devkit-disks-device.c:1034-1041 | a path is a partition entry exactly when it joins the disk's directory and a listed name starting with the disk's name |
| Enumerate.ReverseMultiset | src/devkit-disks-device.c:1028 | prepending one by one keeps every element and its count |
| Enumerate.ReverseAppend | src/devkit-disks-device.c:1028-1039 | prepending a second batch puts it, reversed, in front of the first |
| Enumerate.InsertSorted | src/devkit-disks-device.c:1051 | inserting into a `strcmp`-sorted list keeps it sorted and adds exactly that element |
| Enumerate.SortByStrcmp | src/devkit-disks-device.c:1051 | the result is sorted by `strcmp` and a permutation of the input |
| Enumerate.SortedUnique | src/devkit-disks-device.c:1051 | two sorted lists with the same elements are equal, so the output does not depend on listing order |
| Enumerate.SortedHeadsAgree | src/devkit-disks-device.c:1051 | two sorted lists with the same elements start with the same element |
| Enumerate.PrependPartitions | src/devkit-disks-device.c:1034-1043 | the inner loop prepends the disk's partition entries, in reverse listing order |
| Enumerate.PrependContribution | src/devkit-disks-device.c:1017-1044 | one pass of the outer loop prepends that name's contribution, reversed |
| Enumerate.EnumerateNativePaths | src/devkit-disks-device.c:993-1054 | the result is the sorted collection of every contribution |
| Enumerate.EnumerationShape | src/devkit-disks-device.c:1009-1051 | the enumeration (`Enumeration`: the collected paths sorted by `strcmp`) is sorted, a permutation of what was collected, and empty when the root cannot be opened |
| Enumerate.VisitedMembership | src/devkit-disks-device.c:1013-1045 | a path is visited exactly when some listed name contributes it |
| Enumerate.EnumerationMembership | src/devkit-disks-device.c:1013-1051 | a path is enumerated exactly when some name of the root listing contributes it |
| Enumerate.ContributionRule | src/devkit-disks-device.c:1017-1044 | of what one name of the root listing adds (`Contribution`): a ram disk contributes nothing; any other resolvable name contributes its resolved path first; with /sys/class/block, at most that path |

## Left out

- CStrings.Strtol: reads a run of decimal digits only. The leading white
  space and sign `strtol` also accepts are not modelled, because the one
  caller passes the index of a digit.
- D-Bus registration (`register_disks_device`): left out, because it is
  framework glue. The model records only the object path it assigns. A
  failure to reach the system bus is not modelled, so `DeviceNew` fails only
  when `update_info` does.
- The GObject type, property and signal plumbing, and error-domain
  registration: left out, because they are framework glue. `emit_changed`
  becomes an entry in the `emitted` log. Its `g_print` is not modelled.
- The daemon registry, polkit, the poller and the inhibitors: left out,
  because `src/devkit-disks-daemon.h` declares them without bodies.
- The iscsi module and the zram integration test: left out, because they are
  outside the device engine.
- The local accessors (`..._get_object_path`, `_get_native_path`,
  `_get_device_file`, `_get_mount_path`): left out, because they return a
  field and the model exposes those fields directly.
- File-system access (`g_file_get_contents`, `g_file_test`, `g_dir_open`,
  `realpath`): left out, because it is operating-system I/O. Sysfs is a map
  of attribute values, and the enumerator's file system is a record of
  listings and `realpath` results.
- `devkit_info_new` and its accessors: left out, because they are a foreign
  library. The feed is an `Option` of device file, symlinks and properties,
  and each property's value is given through every accessor.
- `free_info`: left out, because it only releases memory. The reset is the
  replacement of the record by `EmptyInfo`.
- `atoi`, `atoll` and `strtol` overflow, and the `int` width of
  `partition_number`, `partition_table_count` and
  `partition_table_max_number`: not modelled. Numbers are unbounded.
- NativePaths.PartitionNumberOf: does not model `atoi` past `INT_MAX`.
  The partition number is unbounded.
- Enumerate.JoinPath: does not model `g_build_filename` collapsing
  repeated separators. It joins with one '/'.
- Device.Device.SetMounted: does not model a NULL mount path. The argument
  is a string.
- Device.Device.StoreTableEntry: models the `GArray` growth on a sequence
  rather than in place. Like `DeviceInfo.ApplyTableKey`, it stores nothing
  for n = 0 (Findings row 2), where the code writes past the array.
- Enumerate.SortByStrcmp: stands in for `g_list_sort`, which is a merge
  sort. Only the result is modelled, not the algorithm.
- DeviceInfo.BlockFacts: reads the "size" and "start" attributes through
  the corrected `Sysfs.GetUint64` (Findings row 1), not through the
  `int`-returning reader as written. For 2^31 sectors or more its sizes
  therefore differ from the code's, as `Sysfs.SizeTruncationExample` shows.
- Device.Device.UpdateInfoFromSysfs: uses the same corrected read, since it
  is proved equal to `DeviceInfo.BlockFacts`.
- DeviceInfo.ApplyTableKey: stores nothing for a "PART_P0_OFFSET" or
  "PART_P0_SIZE" key. It uses the corrected `DeviceInfo.TableStore`
  (Findings row 2), where the code writes past the end of the array, as
  `DeviceInfo.PartZeroWritesPastEnd` shows.
- In these two places the model follows the code where the documented
  behaviour differs:
  - when the device-info library cannot resolve a device, `update_info`
    returns FALSE, so `devkit_disks_device_new` drops the device and
    `devkit_disks_device_changed` emits nothing;
  - the slave of a partition is the object path of the basename of its
    parent directory, so `/sys/block/sda/sda1` has slave `/devices/sda`,
    while `/sys/class/block/sda1` has slave `/devices/block`.

## Findings

| source | as written | input that shows it | evidently intended | confidence | as-written member | corrected member |
|---|---|---|---|---|---|---|
| src/devkit-disks-device.c:650-665 | `sysfs_get_uint64` computes a `guint64` but is declared to return `int`, so the size and start of a device of 2^31 sectors or more are truncated to 32 bits and sign-extended before the product by 512 | a "size" attribute of 2147483648 (a 1 TiB disk) | the function returns the full `guint64`, giving 2^40 bytes | not executed | Sysfs.GetUint64AsWritten, Sysfs.AttributeBytesAsWritten, Sysfs.SizeTruncationExample | Sysfs.GetUint64, Sysfs.AttributeBytes |
| src/devkit-disks-device.c:798-805 | for a `PART_P0_OFFSET` or `PART_P0_SIZE` key on a whole disk, `index = part_number - 1` wraps to 2^32 - 1, `index + 1` wraps back to 0, the array keeps its length, and the store lands past its end | a property "PART_P0_OFFSET" fed to a device without a "start" attribute | partition numbers start at 1, so n = 0 stores nothing | not executed | DeviceInfo.TableIndexAsWritten, DeviceInfo.PartZeroWritesPastEnd | DeviceInfo.TableStore |
| src/devkit-disks-device.c:904-907 | when the native path holds no '/', the loop ends at n = -1 and `s[n] = '\0'` writes one byte before the buffer | a native path "sda1" with a "start" attribute | cut at the last '/' only when there is one | low; not executed (native paths from the enumerator are absolute) | NativePaths.SlaveCutIndex, NativePaths.SlaveCutUnderflow | NativePaths.ParentDirectory, NativePaths.ParentDir |
