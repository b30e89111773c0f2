/**
 * A block device as the daemon holds it: its native (sysfs) path, the
 * object path it is exported under, the info record update_info fills in,
 * and the log of "changed" signals it has emitted.
 */
module Device {
  import opened Wrappers
  import opened CStrings
  import opened Sysfs
  import opened ObjectPaths
  import opened NativePaths
  import opened DeviceInfo

  class Device {
    /** The sysfs path, fixed when the device is created. */
    const nativePath: string
    /** The object path; None until the device is registered. */
    var objectPath: Option<string>
    /** What is currently known about the device. */
    var info: Info
    /** The object path carried by each "changed" signal emitted, in order. */
    var emitted: seq<Option<string>>

    /** The record is mounted exactly when it has a mount path, and never
        both a partition and a partition table. */
    predicate Valid()
      reads this
    {
      MountConsistent(info) && !(info.device.isPartition && info.device.isPartitionTable)
    }

    /** The instance init: the record cleared by init_info, nothing
        registered, nothing emitted. */
    constructor (nativePath: string)
      ensures this.nativePath == nativePath
      ensures info == EmptyInfo() && objectPath.None? && emitted == []
      ensures Valid()
    {
      this.nativePath := nativePath;
      objectPath := None;
      info := EmptyInfo();
      emitted := [];
    }

    /** emit_changed: one "changed" signal carrying the object path. */
    method EmitChanged()
      modifies this`emitted
      ensures emitted == old(emitted) + [objectPath]
    {
      emitted := emitted + [objectPath];
    }

    /** update_info_symlinks_cb */
    method UpdateInfoSymlinksCb(link: string)
      modifies this`info
      ensures info == old(info).(files := ApplySymlink(old(info).files, link))
    {
      if HasPrefix(link, "/dev/disk/by-id/") || HasPrefix(link, "/dev/disk/by-uuid/") {
        info := info.(files := info.files.(byId := info.files.byId + [link]));
      } else if HasPrefix(link, "/dev/disk/by-path/") {
        info := info.(files := info.files.(byPath := info.files.byPath + [link]));
      }
    }

    /** update_info_add_ptr, with the partition flags as its array. */
    method UpdateInfoAddPtr(str: string)
      modifies this`info
      ensures info == old(info).(partition := old(info).partition.(flags := old(info).partition.flags + [str]))
    {
      info := info.(partition := info.partition.(flags := info.partition.flags + [str]));
    }

    /** The branch of update_info_properties_cb for a "PART_P<n>_..." key on
        a device that is not a partition: raise the highest partition
        number, then grow the offset or size array to n elements and store
        the value at n - 1 (nothing is stored for n = 0). */
    method StoreTableEntry(pk: PartKey, value: PropValue)
      modifies this`info
      ensures info == old(info).(table := ApplyTableKey(old(info).table, pk, value))
    {
      if pk.number > info.table.maxNumber {
        info := info.(table := info.table.(maxNumber := pk.number));
      }
      var isOffset := HasPrefix(pk.suffix, "_OFFSET");
      if isOffset || HasPrefix(pk.suffix, "_SIZE") {
        var arr := if isOffset then info.table.offsets else info.table.sizes;
        if pk.number >= 1 {
          if pk.number > |arr| {
            arr := arr + Zeros(pk.number - |arr|);
          }
          arr := arr[pk.number - 1 := value.asUint64];
        }
        if isOffset {
          info := info.(table := info.table.(offsets := arr));
        } else {
          info := info.(table := info.table.(sizes := arr));
        }
      }
    }

    /** The branch of update_info_properties_cb for a "PART_P<n>_..." key on
        the partition numbered n; flags are added one by one. */
    method StoreOwnPartEntry(suffix: string, value: PropValue)
      modifies this`info
      ensures info == old(info).(partition := ApplyOwnPartKey(old(info).partition, suffix, value))
    {
      if HasPrefix(suffix, "_LABEL") {
        info := info.(partition := info.partition.(partLabel := Some(value.asString)));
      } else if HasPrefix(suffix, "_UUID") {
        info := info.(partition := info.partition.(uuid := Some(value.asString)));
      } else if HasPrefix(suffix, "_TYPE") {
        info := info.(partition := info.partition.(partType := Some(value.asString)));
      } else if HasPrefix(suffix, "_OFFSET") {
        info := info.(partition := info.partition.(offset := value.asUint64));
      } else if HasPrefix(suffix, "_SIZE") {
        info := info.(partition := info.partition.(size := value.asUint64));
      } else if HasPrefix(suffix, "_FLAGS") {
        var flags := value.asStrList;
        var i := 0;
        while i < |flags|
          invariant 0 <= i <= |flags|
          invariant info == old(info).(partition := old(info).partition.(flags := old(info).partition.flags + flags[..i]))
        {
          UpdateInfoAddPtr(flags[i]);
          assert flags[..i + 1] == flags[..i] + [flags[i]];
          i := i + 1;
        }
        assert flags[..i] == flags;
      }
    }

    /** The "ID_FS_*" branches of update_info_properties_cb. */
    method StoreIdProperty(key: string, value: PropValue)
      requires IsIdKey(key)
      modifies this`info
      ensures info == old(info).(id := ApplyIdKey(old(info).id, key, value))
    {
      if key == "ID_FS_USAGE" {
        info := info.(id := info.id.(usage := Some(value.asString)));
      } else if key == "ID_FS_TYPE" {
        info := info.(id := info.id.(fsType := Some(value.asString)));
      } else if key == "ID_FS_VERSION" {
        info := info.(id := info.id.(version := Some(value.asString)));
      } else if key == "ID_FS_UUID" {
        info := info.(id := info.id.(uuid := Some(value.asString)));
      } else {
        info := info.(id := info.id.(fsLabel := Some(value.asString)));
      }
    }

    /** The drive branches of update_info_properties_cb. */
    method StoreDriveProperty(key: string, value: PropValue)
      requires IsDriveKey(key)
      modifies this`info
      ensures info == old(info).(drive := ApplyDriveKey(old(info).drive, old(info).device.isDrive, key, value))
    {
      if key == "ID_VENDOR" {
        if info.device.isDrive && info.drive.vendor.None? {
          info := info.(drive := info.drive.(vendor := Some(value.asString)));
        }
      } else if key == "ID_MODEL" {
        if info.device.isDrive && info.drive.model.None? {
          info := info.(drive := info.drive.(model := Some(value.asString)));
        }
      } else if key == "ID_REVISION" {
        if info.device.isDrive && info.drive.revision.None? {
          info := info.(drive := info.drive.(revision := Some(value.asString)));
        }
      } else {
        if info.device.isDrive && info.drive.serial.None? {
          info := info.(drive := info.drive.(serial := Some(value.asString)));
        }
      }
    }

    /** The "PART_*" branches of update_info_properties_cb. */
    method StorePartitionProperty(key: string, value: PropValue)
      requires IsPartitionKey(key)
      modifies this`info
      ensures info == ApplyPartitionKey(old(info), key, value)
    {
      if key == "PART_SCHEME" {
        if info.device.isPartition {
          info := info.(partition := info.partition.(scheme := Some(value.asString)));
        } else {
          info := info.(device := info.device.(isPartitionTable := true),
                        table := info.table.(scheme := Some(value.asString)));
        }
      } else if key == "PART_COUNT" {
        info := info.(table := info.table.(count := value.asInt));
      } else {
        var partNumber, endp := Strtol(key, 6);
        if endp < |key| && key[endp] == '_' {
          var pk := PartKey(partNumber, key[endp..]);
          assert ParsePartKey(key) == Some(pk);
          if !info.device.isPartition {
            StoreTableEntry(pk, value);
          } else if partNumber == info.partition.number {
            StoreOwnPartEntry(pk.suffix, value);
          }
        }
      }
    }

    /** update_info_properties_cb */
    method UpdateInfoPropertiesCb(key: string, value: PropValue)
      modifies this`info
      ensures info == ApplyProperty(old(info), key, value)
      ensures old(Valid()) ==> Valid()
    {
      if IsIdKey(key) {
        StoreIdProperty(key, value);
      } else if IsDriveKey(key) {
        StoreDriveProperty(key, value);
      } else if IsPartitionKey(key) {
        StorePartitionProperty(key, value);
      } else if key == "MEDIA_AVAILABLE" {
        if info.device.isRemovable {
          info := info.(device := info.device.(isMediaAvailable := value.asBool));
        }
      }
    }

    /** The part of update_info that reads sysfs: reset the record, then set
        the drive, removable, media-available, block size and size facts,
        and on a device with a "start" attribute the partition facts, its
        number from the trailing digits of the native path and its slave
        from the parent directory. */
    method UpdateInfoFromSysfs(attrs: Attributes)
      modifies this`info
      ensures info == BlockFacts(nativePath, attrs)
    {
      info := EmptyInfo();
      info := info.(device := info.device.(isDrive := FileExists(attrs, "device")));
      info := info.(device := info.device.(isRemovable := GetInt(attrs, "removable") != 0));
      if !info.device.isRemovable {
        info := info.(device := info.device.(isMediaAvailable := true));
      }
      info := info.(device := info.device.(blockSize := BlockSize));
      info := info.(device := info.device.(size := SectorsToBytes(GetUint64(attrs, "size"))));
      if FileExists(attrs, "start") {
        info := info.(device := info.device.(isPartition := true));
        var start := GetUint64(attrs, "start");
        var size := GetUint64(attrs, "size");
        info := info.(partition := info.partition.(offset := SectorsToBytes(start),
                                                   size := SectorsToBytes(size)));
        var number := PartitionNumberOf(nativePath);
        info := info.(partition := info.partition.(number := number));
        var parent := ParentDirectory(nativePath);
        var slave := ComputeObjectPathFromBasename(PathBasename(parent));
        info := info.(partition := info.partition.(slave := Some(slave)));
      }
    }

    /** The part of update_info after the feed resolved the device: set
        the device file, pass each symlink to update_info_symlinks_cb and
        each property to update_info_properties_cb. */
    method UpdateInfoFromFeed(f: Feed)
      modifies this`info
      ensures info == ApplyFeed(old(info), f)
    {
      var facts := info;
      info := info.(files := info.files.(file := Some(f.deviceFile)));
      var start := info.files;
      var i := 0;
      while i < |f.symlinks|
        invariant 0 <= i <= |f.symlinks|
        invariant info == facts.(files := FoldSymlinks(start, f.symlinks[..i]))
      {
        assert f.symlinks[..i + 1][..i] == f.symlinks[..i];
        UpdateInfoSymlinksCb(f.symlinks[i]);
        i := i + 1;
      }
      assert f.symlinks[..i] == f.symlinks;
      var linked := info;
      var j := 0;
      while j < |f.properties|
        invariant 0 <= j <= |f.properties|
        invariant info == FoldProperties(linked, f.properties[..j])
      {
        assert f.properties[..j + 1][..j] == f.properties[..j];
        UpdateInfoPropertiesCb(f.properties[j].key, f.properties[j].value);
        j := j + 1;
      }
      assert f.properties[..j] == f.properties;
    }

    /** update_info: the sysfs facts, then, when the feed resolves the
        device, its device file, symlinks and properties; it succeeds
        exactly when the feed does, and always leaves a valid record. */
    method UpdateInfo(attrs: Attributes, feed: Option<Feed>) returns (ok: bool)
      modifies this`info
      ensures ok <==> feed.Some?
      ensures info == ProbeInfo(nativePath, attrs, feed)
      ensures Valid()
    {
      UpdateInfoFromSysfs(attrs);
      ProbeClassification(nativePath, attrs, feed);
      ProbeUnmounted(nativePath, attrs, feed);
      if feed.None? {
        return false;
      }
      UpdateInfoFromFeed(feed.value);
      return true;
    }

    /** devkit_disks_device_changed: refresh the record and emit "changed"
        only when the refresh succeeds. */
    method Changed(attrs: Attributes, feed: Option<Feed>)
      modifies this`info, this`emitted
      ensures info == ProbeInfo(nativePath, attrs, feed)
      ensures emitted == old(emitted) + (if feed.Some? then [objectPath] else [])
      ensures Valid()
    {
      var ok := UpdateInfo(attrs, feed);
      if ok {
        EmitChanged();
      }
    }

    /** devkit_disks_device_local_set_mounted: record the mount path, mark
        the device mounted and emit one "changed". */
    method SetMounted(mountPath: string)
      modifies this`info, this`emitted
      ensures info == old(info).(device := old(info).device.(isMounted := true, mountPath := Some(mountPath)))
      ensures emitted == old(emitted) + [objectPath]
      ensures MountConsistent(info) && (old(Valid()) ==> Valid())
    {
      info := info.(device := info.device.(mountPath := Some(mountPath)));
      info := info.(device := info.device.(isMounted := true));
      EmitChanged();
    }

    /** devkit_disks_device_local_set_unmounted: clear the mount path, mark
        the device unmounted and emit one "changed". */
    method SetUnmounted()
      modifies this`info, this`emitted
      ensures info == old(info).(device := old(info).device.(isMounted := false, mountPath := None))
      ensures emitted == old(emitted) + [objectPath]
      ensures MountConsistent(info) && (old(Valid()) ==> Valid())
    {
      info := info.(device := info.device.(mountPath := None));
      info := info.(device := info.device.(isMounted := false));
      EmitChanged();
    }
  }

  /** devkit_disks_device_new: a device whose first update_info fails is
      dropped; otherwise it is registered under the object path of its
      native path. */
  method DeviceNew(nativePath: string, attrs: Attributes, feed: Option<Feed>) returns (d: Device?)
    ensures d == null <==> feed.None?
    ensures d != null ==>
      fresh(d) && d.nativePath == nativePath && d.Valid() &&
      d.info == ProbeInfo(nativePath, attrs, feed) &&
      d.objectPath == Some(ObjectPathOf(nativePath)) && d.emitted == []
  {
    d := new Device(nativePath);
    var ok := d.UpdateInfo(attrs, feed);
    if !ok {
      return null;
    }
    var objectPath := ComputeObjectPath(nativePath);
    d.objectPath := Some(objectPath);
  }

  /** devkit_disks_device_local_set_mounted followed by
      devkit_disks_device_local_set_unmounted on an unmounted device gives
      back the record it had, and emits two "changed" signals. */
  method MountThenUnmount(d: Device, mountPath: string)
    requires !d.info.device.isMounted && d.info.device.mountPath.None?
    modifies d`info, d`emitted
    ensures d.info == old(d.info)
    ensures d.emitted == old(d.emitted) + [d.objectPath, d.objectPath]
  {
    d.SetMounted(mountPath);
    d.SetUnmounted();
  }
}
