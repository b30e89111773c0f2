/**
 * The info record of a device (the info struct of DevkitDisksDevicePrivate),
 * the input update_info reads it from, and what its two callbacks,
 * update_info_symlinks_cb and update_info_properties_cb, do to it. The
 * functions here specify the Device methods of the same names.
 */
module DeviceInfo {
  import opened Wrappers
  import opened CStrings
  import opened Sysfs
  import opened ObjectPaths
  import opened NativePaths

  /** The device file of a device and the symlinks to it, sorted into the
      by-id and by-path buckets. */
  datatype DeviceFiles = DeviceFiles(
    file: Option<string>,
    byId: seq<string>,
    byPath: seq<string>)

  /** The rest of the device-* part of the record: its classification,
      media, size and mount state. */
  datatype DeviceFacts = DeviceFacts(
    isPartition: bool,
    isPartitionTable: bool,
    isRemovable: bool,
    isMediaAvailable: bool,
    isDrive: bool,
    size: U64,
    blockSize: U64,
    isMounted: bool,
    mountPath: Option<string>)

  /** The id-* part: what the content of the device is. */
  datatype IdFacts = IdFacts(
    usage: Option<string>,
    fsType: Option<string>,
    version: Option<string>,
    uuid: Option<string>,
    fsLabel: Option<string>)

  /** The partition-* part: set only on a partition. */
  datatype PartitionFacts = PartitionFacts(
    slave: Option<string>,
    scheme: Option<string>,
    partType: Option<string>,
    partLabel: Option<string>,
    uuid: Option<string>,
    flags: seq<string>,
    number: nat,
    offset: U64,
    size: U64)

  /** The partition-table-* part: set only on a partitioned device. */
  datatype TableFacts = TableFacts(
    scheme: Option<string>,
    count: int,
    maxNumber: nat,
    offsets: seq<U64>,
    sizes: seq<U64>)

  /** The drive-* part: set only on a drive. */
  datatype DriveFacts = DriveFacts(
    vendor: Option<string>,
    model: Option<string>,
    revision: Option<string>,
    serial: Option<string>)

  /** One snapshot of what is known about a device (the info member of the
      device's private data), grouped by the prefix of its property names;
      NULL strings are None. */
  datatype Info = Info(
    files: DeviceFiles,
    device: DeviceFacts,
    id: IdFacts,
    partition: PartitionFacts,
    table: TableFacts,
    drive: DriveFacts)

  /** init_info: every field zero, NULL or an empty array. */
  function EmptyInfo(): (r: Info)
    ensures MountConsistent(r) && !r.device.isMounted
    ensures !r.device.isPartition && !r.device.isPartitionTable && !r.device.isDrive
    ensures r.files == DeviceFiles(None, [], []) && r.partition.flags == []
    ensures r.table.offsets == [] && r.table.sizes == [] && r.table.maxNumber == 0
    ensures r.table.scheme.None? && r.table.count == 0
    ensures !r.device.isRemovable && !r.device.isMediaAvailable
    ensures r.device.size == 0 && r.device.blockSize == 0
    ensures forall key | IsIdKey(key) :: IdField(r.id, key).None?
    ensures forall key | IsDriveKey(key) :: DriveField(r.drive, key).None?
    ensures r.partition.slave.None? && r.partition.scheme.None? && r.partition.partType.None?
    ensures r.partition.partLabel.None? && r.partition.uuid.None?
    ensures r.partition.number == 0 && r.partition.offset == 0 && r.partition.size == 0
  {
    Info(
      DeviceFiles(None, [], []),
      DeviceFacts(false, false, false, false, false, 0, 0, false, None),
      IdFacts(None, None, None, None, None),
      PartitionFacts(None, None, None, None, None, [], 0, 0, 0),
      TableFacts(None, 0, 0, [], []),
      DriveFacts(None, None, None, None))
  }

  /** A device is mounted exactly when it has a mount path. */
  predicate MountConsistent(info: Info) {
    info.device.isMounted <==> info.device.mountPath.Some?
  }

  /** What the device-info library answers for one property key, through
      each of its typed accessors. */
  datatype PropValue = PropValue(
    asString: string,
    asInt: int,
    asUint64: U64,
    asBool: bool,
    asStrList: seq<string>)

  datatype Property = Property(key: string, value: PropValue)

  /** What devkit_info_new yields for a native path: the device file, its
      symlinks and its properties, in the order the library visits them. */
  datatype Feed = Feed(deviceFile: string, symlinks: seq<string>, properties: seq<Property>)

  // ---------------------------------------------------------------------
  // update_info_symlinks_cb

  /** A symlink sorted into device_file_by_id. */
  predicate IsByIdLink(link: string) {
    HasPrefix(link, "/dev/disk/by-id/") || HasPrefix(link, "/dev/disk/by-uuid/")
  }

  /** A symlink sorted into device_file_by_path. */
  predicate IsByPathLink(link: string) {
    HasPrefix(link, "/dev/disk/by-path/")
  }

  /** No symlink belongs to both buckets. */
  lemma LinkBucketsDisjoint(link: string)
    ensures !(IsByIdLink(link) && IsByPathLink(link))
  {
    if IsByPathLink(link) {
      assert link[13] == "/dev/disk/by-path/"[13] == 'p';
    }
  }

  /** update_info_symlinks_cb: append the link to the bucket its prefix
      names; drop it when it names neither. */
  function ApplySymlink(files: DeviceFiles, link: string): DeviceFiles {
    if IsByIdLink(link) then files.(byId := files.byId + [link])
    else if IsByPathLink(link) then files.(byPath := files.byPath + [link])
    else files
  }

  /** The callback applied to each symlink in turn. */
  function FoldSymlinks(files: DeviceFiles, links: seq<string>): DeviceFiles {
    if links == [] then files
    else ApplySymlink(FoldSymlinks(files, links[..|links| - 1]), links[|links| - 1])
  }

  /** The by-id links of links, in their order. */
  function ByIdLinks(links: seq<string>): seq<string> {
    if links == [] then []
    else
      var last := links[|links| - 1];
      ByIdLinks(links[..|links| - 1]) + (if IsByIdLink(last) then [last] else [])
  }

  /** The by-path links of links, in their order. */
  function ByPathLinks(links: seq<string>): seq<string> {
    if links == [] then []
    else
      var last := links[|links| - 1];
      ByPathLinks(links[..|links| - 1]) + (if IsByPathLink(last) then [last] else [])
  }

  /** The buckets hold exactly the links with their prefixes. */
  lemma {:induction false} LinkBucketsMembership(links: seq<string>, link: string)
    ensures link in ByIdLinks(links) <==> link in links && IsByIdLink(link)
    ensures link in ByPathLinks(links) <==> link in links && IsByPathLink(link)
  {
    if links != [] {
      var init := links[..|links| - 1];
      LinkBucketsMembership(init, link);
      assert links == init + [links[|links| - 1]];
    }
  }

  /** Folding the symlinks appends the by-id ones to device_file_by_id and
      the by-path ones to device_file_by_path, each in feed order, and
      leaves the device file alone. */
  lemma {:induction false} SymlinkBuckets(files: DeviceFiles, links: seq<string>)
    ensures FoldSymlinks(files, links) ==
      files.(byId := files.byId + ByIdLinks(links), byPath := files.byPath + ByPathLinks(links))
  {
    if links == [] {
      assert files.byId + [] == files.byId;
      assert files.byPath + [] == files.byPath;
    } else {
      var init, last := links[..|links| - 1], links[|links| - 1];
      SymlinkBuckets(files, init);
      LinkBucketsDisjoint(last);
      var byId := if IsByIdLink(last) then [last] else [];
      var byPath := if IsByPathLink(last) then [last] else [];
      assert files.byId + ByIdLinks(init) + byId == files.byId + ByIdLinks(links);
      assert files.byPath + ByPathLinks(init) + byPath == files.byPath + ByPathLinks(links);
      assert ByIdLinks(init) + [] == ByIdLinks(init);
      assert ByPathLinks(init) + [] == ByPathLinks(init);
    }
  }

  // ---------------------------------------------------------------------
  // update_info_properties_cb

  /** The parts of a "PART_P<n>_..." key: n and the rest from the '_'. */
  datatype PartKey = PartKey(number: nat, suffix: string)

  /** The key test of update_info_properties_cb: "PART_P", a digit, the
      digit run strtol reads as n, then a rest that starts with '_'. */
  function ParsePartKey(key: string): (r: Option<PartKey>)
    ensures r.Some? ==> HasPrefix(key, "PART_P") && |key| > 6 && IsDigit(key[6])
    ensures r.Some? ==> HasPrefix(r.value.suffix, "_") && |r.value.suffix| < |key| - 6
    ensures r.Some? ==> key[|key| - |r.value.suffix|..] == r.value.suffix
  {
    if HasPrefix(key, "PART_P") && |key| > 6 && IsDigit(key[6]) then
      var k := 6 + LeadingDigitCount(key[6..]);
      if k < |key| && key[k] == '_' then Some(PartKey(DecimalValue(key[6..][..k - 6]), key[k..])) else None
    else None
  }

  /** The keys the partitioner writes for partition n parse back to n and
      their suffix. */
  lemma PartKeyRoundTrip(n: nat, suffix: string)
    requires HasPrefix(suffix, "_")
    ensures ParsePartKey("PART_P" + Decimal(n) + suffix) == Some(PartKey(n, suffix))
  {
    var key := "PART_P" + Decimal(n) + suffix;
    var d := Decimal(n);
    assert key[6..] == d + suffix;
    assert key[..6] == "PART_P";
    assert key[6] == d[0];
    LeadingDigitCountOf(d, suffix);
    assert key[6..][..|d|] == d;
    assert key[6 + |d|..] == suffix;
    DecimalRoundTrip(n);
  }

  /** A key that starts with "PART_P" is none of the fixed keys. */
  lemma PartKeyIsNoFixedKey(key: string)
    requires HasPrefix(key, "PART_P")
    ensures key != "ID_FS_USAGE" && key != "ID_FS_TYPE" && key != "ID_FS_VERSION"
    ensures key != "ID_FS_UUID" && key != "ID_FS_LABEL"
    ensures key != "ID_VENDOR" && key != "ID_MODEL" && key != "ID_REVISION" && key != "ID_SERIAL_SHORT"
    ensures key != "PART_SCHEME" && key != "PART_COUNT" && key != "MEDIA_AVAILABLE"
  {
    assert key[0] == 'P' && key[5] == 'P';
  }

  /** n zeros: what g_array_set_size adds to an array created cleared. */
  function Zeros(n: nat): (r: seq<U64>)
    ensures |r| == n && forall k :: 0 <= k < n ==> r[k] == 0
  {
    seq(n, _ => 0)
  }

  /** g_array_set_size to at least index + 1, then the element at index set. */
  function GrowAndSet(arr: seq<U64>, index: nat, value: U64): (r: seq<U64>)
    ensures |r| == if index < |arr| then |arr| else index + 1
    ensures r[index] == value
    ensures forall k :: 0 <= k < |arr| && k != index ==> r[k] == arr[k]
    ensures forall k :: |arr| <= k < |r| && k != index ==> r[k] == 0
  {
    (if index < |arr| then arr else arr + Zeros(index + 1 - |arr|))[index := value]
  }

  /** The index the source computes for a "PART_P<n>_OFFSET" or "_SIZE"
      key: n - 1 as an unsigned int. */
  function TableIndexAsWritten(n: nat): (index: nat)
    ensures index < TwoTo32
    ensures 1 <= n <= TwoTo32 ==> index == n - 1
  {
    (n - 1) % TwoTo32
  }

  /** The length the source passes to g_array_set_size for that key:
      index + 1, again an unsigned int, when it exceeds the length. */
  function TableLengthAsWritten(len: nat, n: nat): (newLen: nat)
    ensures newLen >= len
    ensures 1 <= n < TwoTo32 ==> newLen == if n > len then n else len
  {
    var grown := (TableIndexAsWritten(n) + 1) % TwoTo32;
    if grown > len then grown else len
  }

  /** As written, a "PART_P0_OFFSET" key makes the index 2^32 - 1 and
      leaves the array as long as it was: the store lands past its end. */
  lemma PartZeroWritesPastEnd(len: nat)
    requires len < TwoTo32 - 1
    ensures TableIndexAsWritten(0) == TwoTo32 - 1
    ensures TableLengthAsWritten(len, 0) == len
    ensures TableIndexAsWritten(0) >= TableLengthAsWritten(len, 0)
  {
  }

  /** For 1 <= n < 2^32 the computation as written is GrowAndSet at n - 1. */
  lemma TableStoreAgrees(arr: seq<U64>, n: nat, value: U64)
    requires 1 <= n < TwoTo32
    ensures TableIndexAsWritten(n) == n - 1
    ensures TableLengthAsWritten(|arr|, n) == |GrowAndSet(arr, n - 1, value)|
  {
  }

  /** The store into partition_table_offsets or _sizes for partition n,
      where n = 0, which the source lets underflow, leaves the array alone. */
  function TableStore(arr: seq<U64>, n: nat, value: U64): (r: seq<U64>)
    ensures n == 0 ==> r == arr
    ensures n >= 1 ==> |r| >= n && r[n - 1] == value
    ensures |r| >= |arr|
    ensures forall k :: 0 <= k < |arr| && k != n - 1 ==> r[k] == arr[k]
  {
    if n == 0 then arr else GrowAndSet(arr, n - 1, value)
  }

  /** A "PART_P<n>_..." key on a device that is not a partition: raise the
      highest partition number to n, and record an "_OFFSET" or "_SIZE"
      value as the table entry of partition n. */
  function ApplyTableKey(table: TableFacts, pk: PartKey, value: PropValue): (r: TableFacts)
    ensures r.scheme == table.scheme && r.count == table.count
    ensures r.maxNumber == if pk.number > table.maxNumber then pk.number else table.maxNumber
    ensures HasPrefix(pk.suffix, "_OFFSET") ==>
      r.offsets == TableStore(table.offsets, pk.number, value.asUint64) && r.sizes == table.sizes
    ensures HasPrefix(pk.suffix, "_SIZE") ==>
      r.sizes == TableStore(table.sizes, pk.number, value.asUint64) && r.offsets == table.offsets
    ensures !HasPrefix(pk.suffix, "_OFFSET") && !HasPrefix(pk.suffix, "_SIZE") ==>
      r.offsets == table.offsets && r.sizes == table.sizes
  {
    var raised := table.(maxNumber := if pk.number > table.maxNumber then pk.number else table.maxNumber);
    if HasPrefix(pk.suffix, "_OFFSET") then
      assert !HasPrefix(pk.suffix, "_SIZE") by { assert pk.suffix[1] == 'O'; }
      raised.(offsets := TableStore(table.offsets, pk.number, value.asUint64))
    else if HasPrefix(pk.suffix, "_SIZE") then
      raised.(sizes := TableStore(table.sizes, pk.number, value.asUint64))
    else raised
  }

  /** The suffixes of a "PART_P<n>_..." key that a partition records. */
  predicate IsOwnPartSuffix(suffix: string) {
    HasPrefix(suffix, "_LABEL") || HasPrefix(suffix, "_UUID") || HasPrefix(suffix, "_TYPE") ||
    HasPrefix(suffix, "_OFFSET") || HasPrefix(suffix, "_SIZE") || HasPrefix(suffix, "_FLAGS")
  }

  /** The character after the '_' tells the suffixes apart. */
  lemma OwnPartSuffixLetter(suffix: string)
    ensures HasPrefix(suffix, "_LABEL") ==> suffix[1] == 'L'
    ensures HasPrefix(suffix, "_UUID") ==> suffix[1] == 'U'
    ensures HasPrefix(suffix, "_TYPE") ==> suffix[1] == 'T'
    ensures HasPrefix(suffix, "_OFFSET") ==> suffix[1] == 'O'
    ensures HasPrefix(suffix, "_SIZE") ==> suffix[1] == 'S'
    ensures HasPrefix(suffix, "_FLAGS") ==> suffix[1] == 'F'
  {
  }

  /** A "PART_P<n>_..." key on the partition numbered n: its label, uuid,
      type, offset or size is set, or its flags extended. */
  function ApplyOwnPartKey(partition: PartitionFacts, suffix: string, value: PropValue): (r: PartitionFacts)
    ensures r.slave == partition.slave && r.scheme == partition.scheme && r.number == partition.number
    ensures HasPrefix(suffix, "_LABEL") ==> r == partition.(partLabel := Some(value.asString))
    ensures HasPrefix(suffix, "_UUID") ==> r == partition.(uuid := Some(value.asString))
    ensures HasPrefix(suffix, "_TYPE") ==> r == partition.(partType := Some(value.asString))
    ensures HasPrefix(suffix, "_OFFSET") ==> r == partition.(offset := value.asUint64)
    ensures HasPrefix(suffix, "_SIZE") ==> r == partition.(size := value.asUint64)
    ensures HasPrefix(suffix, "_FLAGS") ==> r == partition.(flags := partition.flags + value.asStrList)
    ensures !IsOwnPartSuffix(suffix) ==> r == partition
    ensures r.partLabel != partition.partLabel ==> r.partLabel == Some(value.asString)
    ensures r.uuid != partition.uuid ==> r.uuid == Some(value.asString)
    ensures r.partType != partition.partType ==> r.partType == Some(value.asString)
    ensures r.offset != partition.offset ==> HasPrefix(suffix, "_OFFSET") && r.offset == value.asUint64
    ensures r.size != partition.size ==> HasPrefix(suffix, "_SIZE") && r.size == value.asUint64
    ensures r.flags != partition.flags ==>
      HasPrefix(suffix, "_FLAGS") && r.flags == partition.flags + value.asStrList
  {
    OwnPartSuffixLetter(suffix);
    if HasPrefix(suffix, "_LABEL") then partition.(partLabel := Some(value.asString))
    else if HasPrefix(suffix, "_UUID") then partition.(uuid := Some(value.asString))
    else if HasPrefix(suffix, "_TYPE") then partition.(partType := Some(value.asString))
    else if HasPrefix(suffix, "_OFFSET") then partition.(offset := value.asUint64)
    else if HasPrefix(suffix, "_SIZE") then partition.(size := value.asUint64)
    else if HasPrefix(suffix, "_FLAGS") then partition.(flags := partition.flags + value.asStrList)
    else partition
  }

  /** update_info_properties_cb for a "PART_P<n>_..." key: on a device that
      is not a partition it records the table entry for partition n; on the
      partition numbered n it records that partition's own data; on any
      other partition it does nothing. */
  function ApplyPartKey(info: Info, pk: PartKey, value: PropValue): (r: Info)
    ensures r.files == info.files && r.device == info.device && r.id == info.id && r.drive == info.drive
    ensures info.device.isPartition && pk.number != info.partition.number ==> r == info
    ensures !info.device.isPartition ==>
      r.partition == info.partition && r.table == ApplyTableKey(info.table, pk, value)
    ensures info.device.isPartition ==>
      r.table == info.table &&
      r.partition == if pk.number == info.partition.number
                     then ApplyOwnPartKey(info.partition, pk.suffix, value) else info.partition
  {
    if !info.device.isPartition then info.(table := ApplyTableKey(info.table, pk, value))
    else if pk.number == info.partition.number then
      info.(partition := ApplyOwnPartKey(info.partition, pk.suffix, value))
    else info
  }

  predicate IsIdKey(key: string) {
    key == "ID_FS_USAGE" || key == "ID_FS_TYPE" || key == "ID_FS_VERSION" ||
    key == "ID_FS_UUID" || key == "ID_FS_LABEL"
  }

  /** The content-identity field an "ID_FS_*" key fills. */
  function IdField(id: IdFacts, key: string): Option<string>
    requires IsIdKey(key)
  {
    if key == "ID_FS_USAGE" then id.usage
    else if key == "ID_FS_TYPE" then id.fsType
    else if key == "ID_FS_VERSION" then id.version
    else if key == "ID_FS_UUID" then id.uuid
    else id.fsLabel
  }

  /** The "ID_FS_*" branches of update_info_properties_cb: each key sets
      its own field of the content identity, whatever it held, and no
      other. */
  function ApplyIdKey(id: IdFacts, key: string, value: PropValue): (r: IdFacts)
    requires IsIdKey(key)
    ensures IdField(r, key) == Some(value.asString)
    ensures forall other :: IsIdKey(other) && other != key ==> IdField(r, other) == IdField(id, other)
  {
    if key == "ID_FS_USAGE" then id.(usage := Some(value.asString))
    else if key == "ID_FS_TYPE" then id.(fsType := Some(value.asString))
    else if key == "ID_FS_VERSION" then id.(version := Some(value.asString))
    else if key == "ID_FS_UUID" then id.(uuid := Some(value.asString))
    else id.(fsLabel := Some(value.asString))
  }

  /** The drive branches of update_info_properties_cb: on a drive, each key
      fills its own field when that is still unset. */
  function ApplyDriveKey(drive: DriveFacts, isDrive: bool, key: string, value: PropValue): (r: DriveFacts)
    requires IsDriveKey(key)
    ensures DriveField(r, key) ==
      if isDrive && DriveField(drive, key).None? then Some(value.asString) else DriveField(drive, key)
    ensures forall other :: IsDriveKey(other) && other != key ==> DriveField(r, other) == DriveField(drive, other)
    ensures r != drive ==> isDrive && DriveField(drive, key).None?
  {
    if key == "ID_VENDOR" then
      if isDrive && drive.vendor.None? then drive.(vendor := Some(value.asString)) else drive
    else if key == "ID_MODEL" then
      if isDrive && drive.model.None? then drive.(model := Some(value.asString)) else drive
    else if key == "ID_REVISION" then
      if isDrive && drive.revision.None? then drive.(revision := Some(value.asString)) else drive
    else
      if isDrive && drive.serial.None? then drive.(serial := Some(value.asString)) else drive
  }

  /** The keys about partitions and partition tables. */
  predicate IsPartitionKey(key: string) {
    key == "PART_SCHEME" || key == "PART_COUNT" || (HasPrefix(key, "PART_P") && |key| > 6 && IsDigit(key[6]))
  }

  /** The partition branches of update_info_properties_cb: "PART_SCHEME"
      names the scheme of a partition or makes any other device a partition
      table, "PART_COUNT" sets the number of table entries, and
      "PART_P<n>_..." keys go to ApplyPartKey. */
  function ApplyPartitionKey(info: Info, key: string, value: PropValue): (r: Info)
    requires IsPartitionKey(key)
    ensures r.files == info.files && r.id == info.id && r.drive == info.drive
    ensures r.device == info.device.(
      isPartitionTable := info.device.isPartitionTable || (key == "PART_SCHEME" && !info.device.isPartition))
    ensures r.partition.number == info.partition.number && r.partition.slave == info.partition.slave
    ensures (r.partition.offset != info.partition.offset || r.partition.size != info.partition.size) ==>
      info.device.isPartition && ParsePartKey(key).Some? && ParsePartKey(key).value.number == info.partition.number
    ensures r.table.maxNumber >= info.table.maxNumber
    ensures |r.table.offsets| >= |info.table.offsets| && |r.table.sizes| >= |info.table.sizes|
    ensures key == "PART_SCHEME" && info.device.isPartition ==>
      r == info.(partition := info.partition.(scheme := Some(value.asString)))
    ensures key == "PART_SCHEME" && !info.device.isPartition ==>
      r == info.(device := info.device.(isPartitionTable := true),
                 table := info.table.(scheme := Some(value.asString)))
    ensures key == "PART_COUNT" ==> r == info.(table := info.table.(count := value.asInt))
    ensures key != "PART_SCHEME" && key != "PART_COUNT" ==>
      r == if ParsePartKey(key).Some? then ApplyPartKey(info, ParsePartKey(key).value, value) else info
  {
    if key == "PART_SCHEME" then
      if info.device.isPartition then info.(partition := info.partition.(scheme := Some(value.asString)))
      else info.(device := info.device.(isPartitionTable := true),
                 table := info.table.(scheme := Some(value.asString)))
    else if key == "PART_COUNT" then info.(table := info.table.(count := value.asInt))
    else
      match ParsePartKey(key)
      case Some(pk) => ApplyPartKey(info, pk, value)
      case None => info
  }

  /** The key families of update_info_properties_cb are disjoint: no key
      is tested by two of its branches. */
  lemma KeyFamiliesDisjoint(key: string)
    ensures IsIdKey(key) ==> !IsDriveKey(key) && !IsPartitionKey(key) && key != "MEDIA_AVAILABLE"
    ensures IsDriveKey(key) ==> !IsPartitionKey(key) && key != "MEDIA_AVAILABLE"
    ensures IsPartitionKey(key) ==> key != "MEDIA_AVAILABLE"
  {
    if HasPrefix(key, "PART_P") {
      PartKeyIsNoFixedKey(key);
    }
  }

  /** update_info_properties_cb: fold one property into the record. An
      "ID_FS_*" key sets its identity field, a drive key its drive field,
      a partition key what ApplyPartitionKey says, "MEDIA_AVAILABLE" the
      media flag of a removable device; any other key changes nothing. */
  function ApplyProperty(info: Info, key: string, value: PropValue): (r: Info)
    ensures IsIdKey(key) ==> r == info.(id := ApplyIdKey(info.id, key, value))
    ensures !IsIdKey(key) ==> r.id == info.id
    ensures IsDriveKey(key) ==> r == info.(drive := ApplyDriveKey(info.drive, info.device.isDrive, key, value))
    ensures IsPartitionKey(key) ==> r == ApplyPartitionKey(info, key, value)
    ensures key == "MEDIA_AVAILABLE" ==>
      r == if info.device.isRemovable then info.(device := info.device.(isMediaAvailable := value.asBool)) else info
    ensures !IsIdKey(key) && !IsDriveKey(key) && !IsPartitionKey(key) && key != "MEDIA_AVAILABLE" ==> r == info
  {
    KeyFamiliesDisjoint(key);
    if IsIdKey(key) then info.(id := ApplyIdKey(info.id, key, value))
    else if IsDriveKey(key) then info.(drive := ApplyDriveKey(info.drive, info.device.isDrive, key, value))
    else if IsPartitionKey(key) then ApplyPartitionKey(info, key, value)
    else if key == "MEDIA_AVAILABLE" then
      if info.device.isRemovable then info.(device := info.device.(isMediaAvailable := value.asBool)) else info
    else info
  }

  /** What one property never does: it never changes the device file and
      symlinks or the classification made from sysfs, raises the table flag
      only on a device that is not a partition, only ever grows the table
      arrays and the highest partition number, changes a drive field only on
      a drive and only when it is still unset, changes media-available only
      for "MEDIA_AVAILABLE" on a removable device, and changes a partition's
      offset or size only for a key of its own number. */
  lemma ApplyPropertyFrame(info: Info, key: string, value: PropValue)
    ensures var r := ApplyProperty(info, key, value);
      && r.files == info.files
      && r.device == info.device.(
           isPartitionTable := info.device.isPartitionTable || (key == "PART_SCHEME" && !info.device.isPartition),
           isMediaAvailable := r.device.isMediaAvailable)
      && (r.device.isMediaAvailable != info.device.isMediaAvailable ==>
            key == "MEDIA_AVAILABLE" && info.device.isRemovable)
      && r.partition.number == info.partition.number && r.partition.slave == info.partition.slave
      && ((r.partition.offset != info.partition.offset || r.partition.size != info.partition.size) ==>
            info.device.isPartition && ParsePartKey(key).Some? &&
            ParsePartKey(key).value.number == info.partition.number)
      && r.table.maxNumber >= info.table.maxNumber
      && |r.table.offsets| >= |info.table.offsets| && |r.table.sizes| >= |info.table.sizes|
      && (r.drive != info.drive ==> info.device.isDrive && IsDriveKey(key) && DriveField(info.drive, key).None?)
  {
    KeyFamiliesDisjoint(key);
  }

  /** On a device that is not a partition, a "PART_P<n>_OFFSET" or
      "PART_P<n>_SIZE" key (n >= 1) leaves that array at least n long with
      the value at n - 1, every other element and the other array as they
      were, and the highest partition number at least n. */
  lemma PartTableStep(info: Info, key: string, value: PropValue)
    requires !info.device.isPartition && ParsePartKey(key).Some?
    ensures var pk := ParsePartKey(key).value;
      var r := ApplyProperty(info, key, value);
      && r.table.maxNumber >= pk.number
      && (pk.number >= 1 && HasPrefix(pk.suffix, "_OFFSET") ==>
            |r.table.offsets| >= pk.number
            && r.table.offsets[pk.number - 1] == value.asUint64
            && (forall k :: 0 <= k < |info.table.offsets| && k != pk.number - 1 ==>
                  r.table.offsets[k] == info.table.offsets[k])
            && r.table.sizes == info.table.sizes)
      && (pk.number >= 1 && HasPrefix(pk.suffix, "_SIZE") ==>
            |r.table.sizes| >= pk.number
            && r.table.sizes[pk.number - 1] == value.asUint64
            && (forall k :: 0 <= k < |info.table.sizes| && k != pk.number - 1 ==>
                  r.table.sizes[k] == info.table.sizes[k])
            && r.table.offsets == info.table.offsets)
  {
    PartKeyIsNoFixedKey(key);
    if HasPrefix(ParsePartKey(key).value.suffix, "_SIZE") {
      assert !HasPrefix(ParsePartKey(key).value.suffix, "_OFFSET") by {
        assert ParsePartKey(key).value.suffix[1] == 'S';
      }
    }
  }

  /** The callback applied to each property in turn. */
  function FoldProperties(info: Info, props: seq<Property>): Info {
    if props == [] then info
    else
      var last := props[|props| - 1];
      ApplyProperty(FoldProperties(info, props[..|props| - 1]), last.key, last.value)
  }

  /** Whether some property has the key "PART_SCHEME". */
  predicate HasSchemeKey(props: seq<Property>) {
    exists i :: 0 <= i < |props| && props[i].key == "PART_SCHEME"
  }

  /** Folding the properties keeps the sysfs facts and mount state, raises
      the table flag exactly when a "PART_SCHEME" key reaches a device that
      is not a partition, keeps media-available on a fixed device, and only
      grows the table arrays and the highest partition number. */
  lemma {:induction false} FoldInvariants(info: Info, props: seq<Property>)
    ensures var r := FoldProperties(info, props);
      && r.files == info.files
      && r.device == info.device.(
           isPartitionTable := info.device.isPartitionTable || (!info.device.isPartition && HasSchemeKey(props)),
           isMediaAvailable := r.device.isMediaAvailable)
      && (!info.device.isRemovable ==> r.device.isMediaAvailable == info.device.isMediaAvailable)
      && r.partition.number == info.partition.number && r.partition.slave == info.partition.slave
      && r.table.maxNumber >= info.table.maxNumber
      && |r.table.offsets| >= |info.table.offsets|
      && |r.table.sizes| >= |info.table.sizes|
      && (!info.device.isDrive ==> r.drive == info.drive)
  {
    if props != [] {
      var init := props[..|props| - 1];
      FoldInvariants(info, init);
      ApplyPropertyFrame(FoldProperties(info, init), props[|props| - 1].key, props[|props| - 1].value);
      HasSchemeKeySnoc(props);
    }
  }

  /** A list has a "PART_SCHEME" key exactly when its front or its last
      property has one. */
  lemma HasSchemeKeySnoc(props: seq<Property>)
    requires props != []
    ensures HasSchemeKey(props) <==>
      HasSchemeKey(props[..|props| - 1]) || props[|props| - 1].key == "PART_SCHEME"
  {
    var init := props[..|props| - 1];
    if HasSchemeKey(init) {
      var i :| 0 <= i < |init| && init[i].key == "PART_SCHEME";
      assert props[i] == init[i];
    }
    if HasSchemeKey(props) && props[|props| - 1].key != "PART_SCHEME" {
      var i :| 0 <= i < |props| && props[i].key == "PART_SCHEME";
      assert init[i] == props[i];
    }
  }

  /** The fold never classifies a device both as a partition and as a
      partition table. */
  lemma ExclusiveClassification(info: Info, props: seq<Property>)
    requires !(info.device.isPartition && info.device.isPartitionTable)
    ensures var r := FoldProperties(info, props);
      !(r.device.isPartition && r.device.isPartitionTable)
  {
    FoldInvariants(info, props);
  }

  /** Every "PART_P<n>_..." key folded into a device that is not a
      partition leaves the highest partition number at least n, and each
      "_OFFSET" or "_SIZE" one (n >= 1) leaves that array at least n long. */
  lemma {:induction false} PartTableCoverage(info: Info, props: seq<Property>, i: nat)
    requires !info.device.isPartition
    requires i < |props| && ParsePartKey(props[i].key).Some?
    ensures var pk := ParsePartKey(props[i].key).value;
      var r := FoldProperties(info, props);
      && r.table.maxNumber >= pk.number
      && (pk.number >= 1 && HasPrefix(pk.suffix, "_OFFSET") ==> |r.table.offsets| >= pk.number)
      && (pk.number >= 1 && HasPrefix(pk.suffix, "_SIZE") ==> |r.table.sizes| >= pk.number)
  {
    var init := props[..|props| - 1];
    var last := props[|props| - 1];
    FoldInvariants(info, init);
    if i == |props| - 1 {
      PartTableStep(FoldProperties(info, init), last.key, last.value);
    } else {
      assert init[i] == props[i];
      PartTableCoverage(info, init, i);
    }
  }

  // ---------------------------------------------------------------------
  // Drive fields: first writer wins

  predicate IsDriveKey(key: string) {
    key == "ID_VENDOR" || key == "ID_MODEL" || key == "ID_REVISION" || key == "ID_SERIAL_SHORT"
  }

  /** The drive field a drive key fills. */
  function DriveField(drive: DriveFacts, key: string): Option<string>
    requires IsDriveKey(key)
  {
    if key == "ID_VENDOR" then drive.vendor
    else if key == "ID_MODEL" then drive.model
    else if key == "ID_REVISION" then drive.revision
    else drive.serial
  }

  /** The string value of the first property with the given key. */
  function FirstValue(props: seq<Property>, key: string): Option<string> {
    if props == [] then None
    else if props[0].key == key then Some(props[0].value.asString)
    else FirstValue(props[1..], key)
  }

  /** Adding a property at the end changes the first value only when there
      was none. */
  lemma {:induction false} FirstValueAppend(props: seq<Property>, p: Property, key: string)
    ensures FirstValue(props + [p], key) ==
      if FirstValue(props, key).Some? then FirstValue(props, key)
      else if p.key == key then Some(p.value.asString)
      else None
  {
    if props != [] {
      assert (props + [p])[1..] == props[1..] + [p];
      FirstValueAppend(props[1..], p, key);
    }
  }

  /** One property, seen by one drive field. */
  lemma DriveFieldStep(info: Info, prop: Property, key: string)
    requires IsDriveKey(key)
    ensures DriveField(ApplyProperty(info, prop.key, prop.value).drive, key) ==
      if info.device.isDrive && DriveField(info.drive, key).None? && prop.key == key
      then Some(prop.value.asString) else DriveField(info.drive, key)
  {
  }

  /** Drive vendor, model, revision and serial are set only on a drive, and
      only by the first property with their key; later ones never overwrite
      them. */
  lemma {:induction false} DriveFirstWriterWins(info: Info, props: seq<Property>, key: string)
    requires IsDriveKey(key)
    ensures DriveField(FoldProperties(info, props).drive, key) ==
      if info.device.isDrive && DriveField(info.drive, key).None? then FirstValue(props, key)
      else DriveField(info.drive, key)
  {
    if props != [] {
      var init, last := props[..|props| - 1], props[|props| - 1];
      DriveFirstWriterWins(info, init, key);
      FoldInvariants(info, init);
      DriveFieldStep(FoldProperties(info, init), last, key);
      assert props == init + [last];
      FirstValueAppend(init, last, key);
    }
  }

  // ---------------------------------------------------------------------
  // update_info

  /** What update_info records from sysfs before it asks for the feed:
      the record is reset, the drive and removable flags read, the size
      taken in 512-byte blocks, and a device with a "start" attribute
      classified as a partition with its offset, size, number and slave. */
  function BlockFacts(nativePath: string, attrs: Attributes): Info {
    var removable := GetInt(attrs, "removable") != 0;
    var empty := EmptyInfo();
    var device := empty.device.(
      isDrive := FileExists(attrs, "device"),
      isRemovable := removable,
      isMediaAvailable := !removable,
      blockSize := BlockSize,
      size := AttributeBytes(attrs, "size"));
    if FileExists(attrs, "start") then
      empty.(
        device := device.(isPartition := true),
        partition := empty.partition.(
          offset := AttributeBytes(attrs, "start"),
          size := AttributeBytes(attrs, "size"),
          number := TrailingNumber(nativePath),
          slave := Some(SlaveObjectPath(nativePath))))
    else empty.(device := device)
  }

  /** The record update_info leaves: the sysfs facts, and, when the feed
      resolves the device, its device file, its symlinks sorted into the
      two buckets and its properties folded in. */
  function ProbeInfo(nativePath: string, attrs: Attributes, feed: Option<Feed>): Info {
    var facts := BlockFacts(nativePath, attrs);
    match feed
    case None => facts
    case Some(f) => ApplyFeed(facts, f)
  }

  /** The second half of update_info: the device file, the symlinks and
      then the properties of a resolved feed, applied to the facts. */
  function ApplyFeed(facts: Info, f: Feed): Info {
    var linked := FoldSymlinks(facts.files.(file := Some(f.deviceFile)), f.symlinks);
    FoldProperties(facts.(files := linked), f.properties)
  }

  /** The device file and symlinks of a probe, which the properties do
      not touch. */
  lemma ProbeBeforeProperties(nativePath: string, attrs: Attributes, f: Feed)
    ensures var facts := BlockFacts(nativePath, attrs);
      FoldSymlinks(facts.files.(file := Some(f.deviceFile)), f.symlinks) ==
        DeviceFiles(Some(f.deviceFile), ByIdLinks(f.symlinks), ByPathLinks(f.symlinks))
  {
    var facts := BlockFacts(nativePath, attrs);
    assert facts.files == DeviceFiles(None, [], []);
    SymlinkBuckets(facts.files.(file := Some(f.deviceFile)), f.symlinks);
    assert [] + ByIdLinks(f.symlinks) == ByIdLinks(f.symlinks);
    assert [] + ByPathLinks(f.symlinks) == ByPathLinks(f.symlinks);
  }

  /** The classification update_info makes: a partition exactly when sysfs
      has "start", a partition table exactly when it is not one and the feed
      has a "PART_SCHEME" key, never both, a drive exactly when sysfs has
      "device"; a fixed device always has media available; the device file
      and its symlinks are those of the feed. */
  lemma ProbeClassification(nativePath: string, attrs: Attributes, feed: Option<Feed>)
    ensures var r := ProbeInfo(nativePath, attrs, feed);
      && (r.device.isPartition <==> FileExists(attrs, "start"))
      && (r.device.isPartitionTable <==>
            !FileExists(attrs, "start") && feed.Some? && HasSchemeKey(feed.value.properties))
      && !(r.device.isPartition && r.device.isPartitionTable)
      && (r.device.isDrive <==> FileExists(attrs, "device"))
      && (r.device.isRemovable <==> GetInt(attrs, "removable") != 0)
      && (!r.device.isRemovable ==> r.device.isMediaAvailable)
      && r.files == match feed
           case None => DeviceFiles(None, [], [])
           case Some(f) => DeviceFiles(Some(f.deviceFile), ByIdLinks(f.symlinks), ByPathLinks(f.symlinks))
  {
    if feed.Some? {
      var f := feed.value;
      var facts := BlockFacts(nativePath, attrs);
      ProbeBeforeProperties(nativePath, attrs, f);
      FoldInvariants(facts.(files := FoldSymlinks(facts.files.(file := Some(f.deviceFile)), f.symlinks)), f.properties);
    }
  }

  /** The sizes update_info records: the device size is the "size"
      attribute times 512 (as a guint64) and the block size 512; a partition
      gets the trailing number of its native path and the object path of its
      parent directory as slave; a device that is not one gets neither. */
  lemma ProbeGeometry(nativePath: string, attrs: Attributes, feed: Option<Feed>)
    ensures var r := ProbeInfo(nativePath, attrs, feed);
      && r.device.size == AttributeBytes(attrs, "size")
      && r.device.blockSize == 512
      && (r.device.isPartition ==>
            r.partition.number == TrailingNumber(nativePath) &&
            r.partition.slave == Some(SlaveObjectPath(nativePath)))
      && (!r.device.isPartition ==> r.partition.number == 0 && r.partition.slave.None?)
  {
    if feed.Some? {
      var f := feed.value;
      var facts := BlockFacts(nativePath, attrs);
      ProbeBeforeProperties(nativePath, attrs, f);
      FoldInvariants(facts.(files := FoldSymlinks(facts.files.(file := Some(f.deviceFile)), f.symlinks)), f.properties);
    }
  }

  /** Whether a property is one of the partition's own "PART_P<n>_..." keys. */
  predicate IsOwnPartKey(prop: Property, number: nat) {
    ParsePartKey(prop.key).Some? && ParsePartKey(prop.key).value.number == number
  }

  /** On a partition, only its own "PART_P<n>_..." keys change its offset
      and size. */
  lemma {:induction false} PartitionGeometryKept(info: Info, props: seq<Property>)
    requires info.device.isPartition
    requires forall i :: 0 <= i < |props| ==> !IsOwnPartKey(props[i], info.partition.number)
    ensures var r := FoldProperties(info, props);
      r.partition.offset == info.partition.offset && r.partition.size == info.partition.size
  {
    if props != [] {
      var init, last := props[..|props| - 1], props[|props| - 1];
      assert forall i :: 0 <= i < |init| ==> init[i] == props[i];
      PartitionGeometryKept(info, init);
      FoldInvariants(info, init);
      assert !IsOwnPartKey(last, info.partition.number);
    }
  }

  /** A partition whose feed has no keys of its own number keeps the offset
      and size it read from sysfs: "start" and "size" times 512. */
  lemma ProbePartitionOffsets(nativePath: string, attrs: Attributes, feed: Option<Feed>)
    requires FileExists(attrs, "start")
    requires feed.Some? ==>
      forall i :: 0 <= i < |feed.value.properties| ==>
        !IsOwnPartKey(feed.value.properties[i], TrailingNumber(nativePath))
    ensures var r := ProbeInfo(nativePath, attrs, feed);
      r.partition.offset == AttributeBytes(attrs, "start") &&
      r.partition.size == AttributeBytes(attrs, "size")
  {
    if feed.Some? {
      var f := feed.value;
      var facts := BlockFacts(nativePath, attrs);
      ProbeBeforeProperties(nativePath, attrs, f);
      PartitionGeometryKept(facts.(files := FoldSymlinks(facts.files.(file := Some(f.deviceFile)), f.symlinks)), f.properties);
    }
  }

  /** update_info forgets the mount state: init_info clears it and nothing
      after sets it, so the record it leaves is unmounted. */
  lemma ProbeUnmounted(nativePath: string, attrs: Attributes, feed: Option<Feed>)
    ensures var r := ProbeInfo(nativePath, attrs, feed);
      !r.device.isMounted && r.device.mountPath.None? && MountConsistent(r)
  {
    if feed.Some? {
      var f := feed.value;
      var facts := BlockFacts(nativePath, attrs);
      ProbeBeforeProperties(nativePath, attrs, f);
      FoldInvariants(facts.(files := FoldSymlinks(facts.files.(file := Some(f.deviceFile)), f.symlinks)), f.properties);
    }
  }

  /** The probe of a device whose feed has no symlinks and one property:
      that property applied to the sysfs facts with the device file set. */
  lemma ProbeOneProperty(nativePath: string, attrs: Attributes, deviceFile: string, p: Property)
    ensures ProbeInfo(nativePath, attrs, Some(Feed(deviceFile, [], [p]))) ==
      var facts := BlockFacts(nativePath, attrs);
      ApplyProperty(facts.(files := facts.files.(file := Some(deviceFile))), p.key, p.value)
  {
    var facts := BlockFacts(nativePath, attrs);
    var start := facts.files.(file := Some(deviceFile));
    assert FoldSymlinks(start, []) == start;
    var props := [p];
    assert props[..0] == [];
    assert FoldProperties(facts.(files := start), props) ==
      ApplyProperty(FoldProperties(facts.(files := start), []), p.key, p.value);
  }

  /** A whole disk whose feed says "PART_SCHEME=gpt" becomes a partition
      table with scheme "gpt". */
  lemma GptDiskScenario(nativePath: string, attrs: Attributes, deviceFile: string, v: PropValue)
    requires !FileExists(attrs, "start") && v.asString == "gpt"
    ensures var r := ProbeInfo(nativePath, attrs, Some(Feed(deviceFile, [], [Property("PART_SCHEME", v)])));
      r.device.isPartitionTable && !r.device.isPartition && r.table.scheme == Some("gpt")
  {
    ProbeOneProperty(nativePath, attrs, deviceFile, Property("PART_SCHEME", v));
  }

  /** On the partition numbered n, a "PART_P<n>_LABEL" key sets the label
      and leaves the record a partition numbered n. */
  lemma OwnLabelStep(info: Info, n: nat, v: PropValue)
    requires info.device.isPartition && info.partition.number == n
    ensures var r := ApplyProperty(info, "PART_P" + Decimal(n) + "_LABEL", v);
      r.device.isPartition && r.partition.number == n && r.partition.partLabel == Some(v.asString)
  {
    var key := "PART_P" + Decimal(n) + "_LABEL";
    assert HasPrefix("_LABEL", "_");
    PartKeyRoundTrip(n, "_LABEL");
    PartKeyIsNoFixedKey(key);
    ApplyPropertyFrame(info, key, v);
  }

  /** Partition n of a disk whose feed says "PART_P<n>_LABEL=l" gets the
      label l. */
  lemma OwnLabelScenario(dir: string, disk: string, n: nat, attrs: Attributes, deviceFile: string, v: PropValue)
    requires disk != [] && '/' !in disk && !IsDigit(disk[|disk| - 1])
    requires FileExists(attrs, "start")
    ensures var path := dir + "/" + disk + "/" + disk + Decimal(n);
      var r := ProbeInfo(path, attrs, Some(Feed(deviceFile, [], [Property("PART_P" + Decimal(n) + "_LABEL", v)])));
      r.device.isPartition && r.partition.number == n && r.partition.partLabel == Some(v.asString)
  {
    var path := dir + "/" + disk + "/" + disk + Decimal(n);
    var p := Property("PART_P" + Decimal(n) + "_LABEL", v);
    PartitionOfDisk(dir, disk, n);
    var facts := BlockFacts(path, attrs);
    var start := facts.(files := facts.files.(file := Some(deviceFile)));
    assert start.device.isPartition && start.partition.number == n;
    OwnLabelStep(start, n, v);
    ProbeOneProperty(path, attrs, deviceFile, p);
    assert ProbeInfo(path, attrs, Some(Feed(deviceFile, [], [p]))) == ApplyProperty(start, p.key, p.value);
  }
}
