/**
 * devkit_disks_enumerate_native_paths: the native paths of all block
 * devices, read from a directory listing of sysfs and sorted with strcmp.
 */
module Enumerate {
  import opened CStrings

  /** The parts of the file system the enumerator looks at: whether
      /sys/class/block exists, the names each openable directory lists (in
      the order the directory yields them), and what realpath resolves each
      resolvable path to. */
  datatype DeviceTree = DeviceTree(
    classBlockExists: bool,
    listings: map<string, seq<string>>,
    realpaths: map<string, string>)

  /** The directory the enumerator lists. */
  function RootDir(tree: DeviceTree): string {
    if tree.classBlockExists then "/sys/class/block" else "/sys/block"
  }

  /** g_build_filename of a directory and one plain name. */
  function JoinPath(dir: string, name: string): string {
    dir + "/" + name
  }

  /** Names of ram disks, which the enumerator skips. */
  predicate IsRamName(name: string) {
    HasPrefix(name, "ram")
  }

  /** The entries of a whole disk's directory that are its partitions (their
      names start with the disk's name), as paths, in listing order. */
  function PartitionEntries(dir: string, disk: string, names: seq<string>): seq<string> {
    if names == [] then []
    else
      var init, last := names[..|names| - 1], names[|names| - 1];
      PartitionEntries(dir, disk, init) + (if HasPrefix(last, disk) then [JoinPath(dir, last)] else [])
  }

  /** A path is a partition entry exactly when it joins the directory and
      a listed name that starts with the disk's name. */
  lemma {:induction false} PartitionEntriesMembership(dir: string, disk: string, names: seq<string>, p: string)
    ensures p in PartitionEntries(dir, disk, names) <==>
      exists i :: 0 <= i < |names| && HasPrefix(names[i], disk) && p == JoinPath(dir, names[i])
  {
    if names != [] {
      var init, last := names[..|names| - 1], names[|names| - 1];
      PartitionEntriesMembership(dir, disk, init, p);
      if exists i :: 0 <= i < |init| && HasPrefix(init[i], disk) && p == JoinPath(dir, init[i]) {
        var i :| 0 <= i < |init| && HasPrefix(init[i], disk) && p == JoinPath(dir, init[i]);
        assert names[i] == init[i];
      }
      if exists i :: 0 <= i < |names| && HasPrefix(names[i], disk) && p == JoinPath(dir, names[i]) {
        var i :| 0 <= i < |names| && HasPrefix(names[i], disk) && p == JoinPath(dir, names[i]);
        if i < |init| {
          assert init[i] == names[i];
        }
      }
    }
  }

  /** What one entry of the root listing adds, in the order it is added:
      nothing for a ram disk or a path realpath cannot resolve; otherwise
      the resolved path, then, without /sys/class/block, the partitions
      found in its directory. */
  function Contribution(tree: DeviceTree, name: string): seq<string> {
    var s := JoinPath(RootDir(tree), name);
    if IsRamName(name) || s !in tree.realpaths then []
    else
      var sysfsPath := tree.realpaths[s];
      [sysfsPath] +
      (if !tree.classBlockExists && sysfsPath in tree.listings
       then PartitionEntries(sysfsPath, name, tree.listings[sysfsPath]) else [])
  }

  /** The contributions of the first names of the listing, in visit order. */
  function Visited(tree: DeviceTree, names: seq<string>): seq<string> {
    if names == [] then []
    else Visited(tree, names[..|names| - 1]) + Contribution(tree, names[|names| - 1])
  }

  function Reverse(s: seq<string>): seq<string> {
    if s == [] then [] else [s[|s| - 1]] + Reverse(s[..|s| - 1])
  }

  /** Reversing keeps the elements and their counts. */
  lemma {:induction false} ReverseMultiset(s: seq<string>)
    ensures multiset(Reverse(s)) == multiset(s)
  {
    if s != [] {
      var init, last := s[..|s| - 1], s[|s| - 1];
      assert s == init + [last];
      ReverseMultiset(init);
    }
  }

  /** Prepending items one by one reverses them in front of the list. */
  lemma {:induction false} ReverseAppend(a: seq<string>, b: seq<string>)
    ensures Reverse(a + b) == Reverse(b) + Reverse(a)
    decreases |b|
  {
    if b == [] {
      assert a + b == a;
    } else {
      var init, last := b[..|b| - 1], b[|b| - 1];
      assert (a + b)[..|a + b| - 1] == a + init;
      ReverseAppend(a, init);
      assert Reverse(b) == [last] + Reverse(init);
    }
  }

  /** The list the loops have built before sorting: every contribution,
      each item prepended, so in reverse visit order; empty when the root
      cannot be opened. */
  function Collected(tree: DeviceTree): seq<string> {
    var root := RootDir(tree);
    if root !in tree.listings then [] else Reverse(Visited(tree, tree.listings[root]))
  }

  predicate Sorted(s: seq<string>) {
    forall i, j :: 0 <= i < j < |s| ==> StrLeq(s[i], s[j])
  }

  /** One step of the sort: x put in its place in a sorted list. */
  function InsertSorted(x: string, s: seq<string>): (r: seq<string>)
    requires Sorted(s)
    ensures Sorted(r) && multiset(r) == multiset(s) + multiset{x}
  {
    if s == [] then [x]
    else if StrLeq(x, s[0]) then
      assert forall j :: 0 < j < |s| ==> StrLeq(x, s[j]) by {
        forall j | 0 < j < |s| {
          StrLeqTransitive(x, s[0], s[j]);
        }
      }
      [x] + s
    else
      StrLeqTotal(x, s[0]);
      SortedTail(s);
      var rest := InsertSorted(x, s[1..]);
      assert s == [s[0]] + s[1..];
      forall k | 0 <= k < |rest|
        ensures StrLeq(s[0], rest[k])
      {
        assert rest[k] in multiset(rest);
        if rest[k] != x {
          assert rest[k] in multiset(s[1..]);
          var j :| 0 <= j < |s[1..]| && s[1..][j] == rest[k];
          assert s[j + 1] == rest[k];
        }
      }
      [s[0]] + rest
  }

  /** g_list_sort (list, strcmp). */
  function SortByStrcmp(s: seq<string>): (r: seq<string>)
    ensures Sorted(r) && multiset(r) == multiset(s)
  {
    if s == [] then []
    else
      assert s == [s[0]] + s[1..];
      InsertSorted(s[0], SortByStrcmp(s[1..]))
  }

  /** The head of a sorted list comes first among its elements. */
  lemma SortedHeadFirst(s: seq<string>, x: string)
    requires Sorted(s) && x in multiset(s)
    ensures StrLeq(s[0], x)
  {
    var j :| 0 <= j < |s| && s[j] == x;
    if j == 0 {
      StrcmpZero(x, x);
    }
  }

  /** The tail of a sorted list is sorted. */
  lemma SortedTail(s: seq<string>)
    requires Sorted(s) && s != []
    ensures Sorted(s[1..])
  {
    forall i, j | 0 <= i < j < |s| - 1 ensures StrLeq(s[1..][i], s[1..][j]) {
      assert s[1..][i] == s[i + 1] && s[1..][j] == s[j + 1];
    }
  }

  /** Two sorted lists with the same elements are the same list: the
      enumeration depends only on which paths were collected, not on the
      order the directories listed them in. */
  lemma {:induction false} SortedUnique(a: seq<string>, b: seq<string>)
    requires Sorted(a) && Sorted(b) && multiset(a) == multiset(b)
    ensures a == b
    decreases |a|
  {
    if a != [] {
      SortedHeadsAgree(a, b);
      MultisetTail(a, b);
      SortedTail(a);
      SortedTail(b);
      SortedUnique(a[1..], b[1..]);
      assert a == [a[0]] + a[1..] && b == [b[0]] + b[1..];
    }
  }

  /** Two sorted lists with the same elements start with the same one. */
  lemma SortedHeadsAgree(a: seq<string>, b: seq<string>)
    requires Sorted(a) && Sorted(b) && multiset(a) == multiset(b) && a != []
    ensures b != [] && a[0] == b[0]
  {
    assert a[0] in multiset(a);
    SortedHeadFirst(a, b[0]);
    SortedHeadFirst(b, a[0]);
    StrLeqAntisymmetric(a[0], b[0]);
  }

  /** Dropping the same head from lists with the same elements leaves
      tails with the same elements. */
  lemma MultisetTail(a: seq<string>, b: seq<string>)
    requires multiset(a) == multiset(b) && a != [] && b != [] && a[0] == b[0]
    ensures multiset(a[1..]) == multiset(b[1..])
  {
    assert a == [a[0]] + a[1..] && b == [b[0]] + b[1..];
    assert multiset(a[1..]) == multiset(a) - multiset{a[0]};
    assert multiset(b[1..]) == multiset(b) - multiset{b[0]};
  }

  /** The result of the enumeration. */
  function Enumeration(tree: DeviceTree): seq<string> {
    SortByStrcmp(Collected(tree))
  }

  /** Prepending one item to a reversed list reverses the list it ends. */
  lemma ReverseSnoc(s: seq<string>, x: string)
    ensures Reverse(s + [x]) == [x] + Reverse(s)
  {
    assert (s + [x])[..|s|] == s;
  }

  /** The partition entries of one more name of the listing. */
  lemma PartitionEntriesSnoc(dir: string, disk: string, names: seq<string>, k: nat)
    requires k < |names|
    ensures PartitionEntries(dir, disk, names[..k + 1]) ==
      PartitionEntries(dir, disk, names[..k]) + (if HasPrefix(names[k], disk) then [JoinPath(dir, names[k])] else [])
  {
    assert names[..k + 1][..k] == names[..k];
  }

  /** The inner loop of the enumerator: each entry of a whole disk's
      directory whose name starts with the disk's name is prepended. */
  method PrependPartitions(acc: seq<string>, sysfsPath: string, name: string, partNames: seq<string>)
    returns (ret: seq<string>)
    ensures ret == Reverse(PartitionEntries(sysfsPath, name, partNames)) + acc
  {
    ret := acc;
    ghost var entries: seq<string> := [];
    var k := 0;
    while k < |partNames|
      invariant 0 <= k <= |partNames|
      invariant entries == PartitionEntries(sysfsPath, name, partNames[..k])
      invariant ret == Reverse(entries) + acc
    {
      PartitionEntriesSnoc(sysfsPath, name, partNames, k);
      if HasPrefix(partNames[k], name) {
        var partSysfsPath := JoinPath(sysfsPath, partNames[k]);
        ReverseSnoc(entries, partSysfsPath);
        ret := [partSysfsPath] + ret;
        entries := entries + [partSysfsPath];
      } else {
        assert entries + [] == entries;
      }
      k := k + 1;
    }
    assert partNames[..k] == partNames;
  }

  /** The body of the outer loop for one name of the root listing. */
  method PrependContribution(acc: seq<string>, tree: DeviceTree, name: string) returns (ret: seq<string>)
    ensures ret == Reverse(Contribution(tree, name)) + acc
  {
    ret := acc;
    var s := JoinPath(RootDir(tree), name);
    if IsRamName(name) || s !in tree.realpaths {
      return;
    }
    var sysfsPath := tree.realpaths[s];
    assert Reverse([sysfsPath]) == [sysfsPath];
    ret := [sysfsPath] + ret;
    if !tree.classBlockExists && sysfsPath in tree.listings {
      ghost var entries := PartitionEntries(sysfsPath, name, tree.listings[sysfsPath]);
      assert Contribution(tree, name) == [sysfsPath] + entries;
      ret := PrependPartitions(ret, sysfsPath, name, tree.listings[sysfsPath]);
      ReverseAppend([sysfsPath], entries);
    } else {
      assert Contribution(tree, name) == [sysfsPath] + [];
    }
  }

  /** devkit_disks_enumerate_native_paths */
  method EnumerateNativePaths(tree: DeviceTree) returns (paths: seq<string>)
    ensures paths == Enumeration(tree)
  {
    var root := RootDir(tree);
    if root !in tree.listings {
      return [];
    }
    var names := tree.listings[root];
    var ret: seq<string> := [];
    var i := 0;
    while i < |names|
      invariant 0 <= i <= |names|
      invariant ret == Reverse(Visited(tree, names[..i]))
    {
      assert names[..i + 1][..i] == names[..i];
      assert Visited(tree, names[..i + 1]) == Visited(tree, names[..i]) + Contribution(tree, names[i]);
      ret := PrependContribution(ret, tree, names[i]);
      ReverseAppend(Visited(tree, names[..i]), Contribution(tree, names[i]));
      i := i + 1;
    }
    assert names[..i] == names;
    assert ret == Collected(tree);
    paths := SortByStrcmp(ret);
  }

  /** The enumeration is sorted by strcmp and holds exactly the collected
      paths; an unopenable root gives the empty list. */
  lemma EnumerationShape(tree: DeviceTree)
    ensures Sorted(Enumeration(tree))
    ensures multiset(Enumeration(tree)) == multiset(Collected(tree))
    ensures RootDir(tree) !in tree.listings ==> Enumeration(tree) == []
  {
  }

  /** A path is visited exactly when some listed name contributes it. */
  lemma {:induction false} VisitedMembership(tree: DeviceTree, names: seq<string>, p: string)
    ensures p in Visited(tree, names) <==>
      exists i :: 0 <= i < |names| && p in Contribution(tree, names[i])
  {
    if names != [] {
      var init := names[..|names| - 1];
      VisitedMembership(tree, init, p);
      if exists i :: 0 <= i < |init| && p in Contribution(tree, init[i]) {
        var i :| 0 <= i < |init| && p in Contribution(tree, init[i]);
        assert names[i] == init[i];
      }
      if exists i :: 0 <= i < |names| && p in Contribution(tree, names[i]) {
        var i :| 0 <= i < |names| && p in Contribution(tree, names[i]);
        if i < |init| {
          assert init[i] == names[i];
        }
      }
    }
  }

  /** A path is enumerated exactly when the root listing has a name that
      is not a ram disk whose path realpath resolves, and the path is the
      resolved one or, without /sys/class/block, a partition entry of its
      directory. */
  lemma EnumerationMembership(tree: DeviceTree, p: string)
    requires RootDir(tree) in tree.listings
    ensures p in Enumeration(tree) <==>
      exists i :: 0 <= i < |tree.listings[RootDir(tree)]| && p in Contribution(tree, tree.listings[RootDir(tree)][i])
  {
    var names := tree.listings[RootDir(tree)];
    assert p in Enumeration(tree) <==> p in multiset(Collected(tree));
    ReverseMultiset(Visited(tree, names));
    VisitedMembership(tree, names, p);
  }

  /** No ram disk contributes anything, and every other resolvable name
      contributes its resolved path. */
  lemma ContributionRule(tree: DeviceTree, name: string)
    ensures IsRamName(name) ==> Contribution(tree, name) == []
    ensures !IsRamName(name) && JoinPath(RootDir(tree), name) in tree.realpaths ==>
      Contribution(tree, name)[0] == tree.realpaths[JoinPath(RootDir(tree), name)]
    ensures tree.classBlockExists ==> |Contribution(tree, name)| <= 1
  {
  }
}
