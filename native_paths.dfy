/**
 * What update_info reads off a partition's native (sysfs) path: its
 * partition number from the trailing digits, and the object path of the
 * device it is a slave of, from the parent directory.
 */
module NativePaths {
  import opened CStrings
  import opened ObjectPaths

  /** Where the run of decimal digits that ends s begins: all of s from
      there on is digits, and the character before it, if any, is not. */
  function TrailingDigitsStart(s: string): (k: nat)
    ensures k <= |s| && AllDigits(s[k..])
    ensures k > 0 ==> !IsDigit(s[k - 1])
  {
    if s == [] || !IsDigit(s[|s| - 1]) then |s| else TrailingDigitsStart(s[..|s| - 1])
  }

  /** The maximal trailing run of digits starts at exactly one place. */
  lemma TrailingRunUnique(s: string, k: nat)
    requires k <= |s| && AllDigits(s[k..])
    requires k > 0 ==> !IsDigit(s[k - 1])
    ensures k == TrailingDigitsStart(s)
  {
  }

  /** The partition number a native path names: its maximal run of trailing
      digits read as a decimal number, 0 when it ends in no digit. */
  function TrailingNumber(s: string): nat {
    DecimalValue(s[TrailingDigitsStart(s)..])
  }

  /** A kernel partition name, a device name followed by "%d" of the
      number, gives back that number. */
  lemma TrailingNumberOfName(prefix: string, n: nat)
    requires prefix == [] || !IsDigit(prefix[|prefix| - 1])
    ensures TrailingNumber(prefix + Decimal(n)) == n
  {
    var s := prefix + Decimal(n);
    assert s[|prefix|..] == Decimal(n);
    TrailingRunUnique(s, |prefix|);
    DecimalRoundTrip(n);
  }

  /** The partition-number step of update_info: scan back from the end over
      the digits, then atoi what follows. */
  method PartitionNumberOf(nativePath: string) returns (number: nat)
    ensures number == TrailingNumber(nativePath)
  {
    var n := |nativePath| - 1;
    while n >= 0 && IsDigit(nativePath[n])
      invariant -1 <= n < |nativePath|
      invariant forall k :: n < k < |nativePath| ==> IsDigit(nativePath[k])
    {
      n := n - 1;
    }
    assert AllDigits(nativePath[n + 1..]);
    TrailingRunUnique(nativePath, n + 1);
    number := DecimalValue(nativePath[n + 1..]);
  }

  /** The index the truncation loop of update_info stops at, and then writes
      a NUL to, as written: the last '/', or -1 when there is none. */
  function SlaveCutIndex(s: string): (n: int)
    ensures -1 <= n < |s|
    ensures n >= 0 ==> s[n] == '/'
    ensures forall k :: n < k < |s| ==> s[k] != '/'
  {
    if s == [] then -1 else if s[|s| - 1] == '/' then |s| - 1 else SlaveCutIndex(s[..|s| - 1])
  }

  /** As written, a native path without '/' makes the loop write a NUL one
      byte before its buffer. */
  lemma SlaveCutUnderflow()
    ensures SlaveCutIndex("sda1") == -1
  {
  }

  /** The directory part of s: what comes before its last '/', or the empty
      string when it holds none. */
  function ParentDir(s: string): (r: string)
    ensures |r| <= |s| && r == s[..|r|]
  {
    if s == [] then [] else if s[|s| - 1] == '/' then s[..|s| - 1] else ParentDir(s[..|s| - 1])
  }

  /** Wherever the loop as written stays inside the buffer, it cuts at the
      place ParentDir does. */
  lemma {:induction false} ParentDirAgrees(s: string)
    ensures ParentDir(s) == s[..if SlaveCutIndex(s) >= 0 then SlaveCutIndex(s) else 0]
  {
    if s != [] && s[|s| - 1] != '/' {
      ParentDirAgrees(s[..|s| - 1]);
    }
  }

  /** The parent-directory step of update_info: copy the native path, clear
      it from the end up to and including its last '/', and keep what is
      left. The NUL is written at the '/' only when there is one. */
  method ParentDirectory(nativePath: string) returns (parent: string)
    ensures parent == ParentDir(nativePath)
  {
    var s := new char[|nativePath|](i requires 0 <= i < |nativePath| => nativePath[i]);
    var n := s.Length - 1;
    while n >= 0 && s[n] != '/'
      invariant -1 <= n < s.Length
      invariant forall k :: 0 <= k <= n ==> s[k] == nativePath[k]
      invariant forall k :: n < k < s.Length ==> s[k] == '\0' && nativePath[k] != '/'
    {
      s[n] := '\0';
      n := n - 1;
    }
    assert n == SlaveCutIndex(nativePath) by {
      SlaveCutIsLastSlash(nativePath, n);
    }
    if n >= 0 {
      s[n] := '\0';
    }
    parent := s[..if n >= 0 then n else 0];
    ParentDirAgrees(nativePath);
  }

  /** SlaveCutIndex is the position of the last '/'. */
  lemma SlaveCutIsLastSlash(s: string, n: int)
    requires -1 <= n < |s| && (n >= 0 ==> s[n] == '/')
    requires forall k :: n < k < |s| ==> s[k] != '/'
    ensures n == SlaveCutIndex(s)
  {
  }

  /** The parent directory of dir + "/" + name is dir. */
  lemma {:induction false} ParentDirOfJoin(dir: string, name: string)
    requires '/' !in name
    ensures ParentDir(dir + "/" + name) == dir
  {
    var s := dir + "/" + name;
    if name == [] {
      assert s[..|s| - 1] == dir;
    } else {
      assert s[..|s| - 1] == dir + "/" + name[..|name| - 1];
      ParentDirOfJoin(dir, name[..|name| - 1]);
    }
  }

  /** The basename of dir + "/" + name is name. */
  lemma BasenameOfJoin(dir: string, name: string)
    requires name != [] && '/' !in name
    ensures PathBasename(dir + "/" + name) == name
  {
    var s := dir + "/" + name;
    assert StripTrailingSlashes(s) == s;
    AfterLastSlashOfJoin(dir, name);
  }

  lemma {:induction false} AfterLastSlashOfJoin(dir: string, name: string)
    requires '/' !in name
    ensures AfterLastSlash(dir + "/" + name) == name
  {
    var s := dir + "/" + name;
    if name == [] {
    } else {
      assert s[..|s| - 1] == dir + "/" + name[..|name| - 1];
      AfterLastSlashOfJoin(dir, name[..|name| - 1]);
    }
  }

  /** The object path update_info records as the partition's slave: that of
      the basename of the parent directory of the native path. */
  function SlaveObjectPath(nativePath: string): string {
    ObjectPathOf(PathBasename(ParentDir(nativePath)))
  }

  /** A partition the kernel names after its disk, at dir/disk/disk<n>
      (for instance "/sys/block/sda/sda1"), has number n and the disk's
      object path as its slave. */
  lemma PartitionOfDisk(dir: string, disk: string, n: nat)
    requires disk != [] && '/' !in disk && !IsDigit(disk[|disk| - 1])
    ensures var path := dir + "/" + disk + "/" + disk + Decimal(n);
      TrailingNumber(path) == n && SlaveObjectPath(path) == ObjectPathOf(disk)
  {
    var name := disk + Decimal(n);
    var path := dir + "/" + disk + "/" + name;
    assert '/' !in name by {
      assert forall i :: 0 <= i < |Decimal(n)| ==> IsDigit(Decimal(n)[i]);
    }
    assert path == (dir + "/" + disk + "/" + disk) + Decimal(n);
    TrailingNumberOfName(dir + "/" + disk + "/" + disk, n);
    ParentDirOfJoin(dir + "/" + disk, name);
    BasenameOfJoin(dir, disk);
  }
}
