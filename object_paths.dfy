/**
 * The D-Bus object path under which a device is registered
 * (compute_object_path_from_basename and compute_object_path): the basename
 * of the device's sysfs path, each '-' turned into '_', under "/devices/".
 */
module ObjectPaths {
  import opened CStrings

  /** The directory every device object path lives in. */
  const DevicesDir: string := "/devices/"

  /** s without its trailing run of '/'. */
  function StripTrailingSlashes(s: string): (r: string)
    ensures |r| <= |s| && r == s[..|r|]
    ensures r == [] || r[|r| - 1] != '/'
  {
    if s == [] || s[|s| - 1] != '/' then s else StripTrailingSlashes(s[..|s| - 1])
  }

  /** The part of s after its last '/' (all of s when it holds none). */
  function AfterLastSlash(s: string): (r: string)
    ensures '/' !in r
    ensures |r| <= |s| && r == s[|s| - |r|..]
    ensures |r| < |s| ==> s[|s| - |r| - 1] == '/'
  {
    if s == [] || s[|s| - 1] == '/' then [] else AfterLastSlash(s[..|s| - 1]) + [s[|s| - 1]]
  }

  /** g_path_get_basename: "." for the empty string, "/" for a string of
      slashes only, otherwise the last component, trailing slashes ignored. */
  function PathBasename(s: string): (r: string)
    ensures r == "." || r == "/" || (r != [] && '/' !in r)
  {
    if s == [] then "."
    else
      var t := StripTrailingSlashes(s);
      if t == [] then "/" else AfterLastSlash(t)
  }

  /** A name without '/' is its own basename. */
  lemma {:induction false} PathBasenameOfName(b: string)
    requires b != [] && '/' !in b
    ensures PathBasename(b) == b
  {
    AfterLastSlashOfName(b);
  }

  lemma {:induction false} AfterLastSlashOfName(b: string)
    requires '/' !in b
    ensures AfterLastSlash(b) == b
  {
    if b != [] {
      AfterLastSlashOfName(b[..|b| - 1]);
    }
  }

  /** g_path_get_basename is idempotent, so compute_object_path, which takes
      the basename before compute_object_path_from_basename takes it again,
      gives the same path as the latter applied to the whole native path. */
  lemma PathBasenameIdempotent(s: string)
    ensures PathBasename(PathBasename(s)) == PathBasename(s)
  {
    var b := PathBasename(s);
    if b != "." && b != "/" {
      PathBasenameOfName(b);
    }
  }

  function SanitizeChar(c: char): char {
    if c == '-' then '_' else c
  }

  /** s with each '-' turned into '_' and every other character kept. */
  function Sanitized(s: string): string {
    seq(|s|, i requires 0 <= i < |s| => SanitizeChar(s[i]))
  }

  /** Sanitizing neither adds nor removes a '/'. */
  lemma SanitizedSlashes(s: string)
    ensures ('/' in Sanitized(s)) <==> ('/' in s)
  {
    var t := Sanitized(s);
    if '/' in s {
      var i :| 0 <= i < |s| && s[i] == '/';
      assert t[i] == '/';
    }
    if '/' in t {
      var i :| 0 <= i < |t| && t[i] == '/';
      assert s[i] == '/';
    }
  }

  /** The object path of a name without '/'. */
  lemma ObjectPathOfName(b: string)
    requires b != [] && '/' !in b
    ensures ObjectPathOf(b) == DevicesDir + Sanitized(b)
  {
    PathBasenameOfName(b);
    SanitizedSlashes(b);
    assert '/' in "/";
  }

  /** g_build_filename (DevicesDir, b) for a basename b: the lone "/" that
      g_path_get_basename gives for a path of slashes merges into the
      trailing separator of DevicesDir; any other basename is appended. */
  function BuildDevicesPath(b: string): string {
    if b == "/" then DevicesDir else DevicesDir + b
  }

  /** The object path compute_object_path_from_basename gives for its
      argument. */
  function ObjectPathOf(nativePathBasename: string): string {
    BuildDevicesPath(Sanitized(PathBasename(nativePathBasename)))
  }

  /** The loop of compute_object_path_from_basename: each '-' of the
      buffer overwritten by '_'. */
  method SanitizeInPlace(buf: array<char>)
    modifies buf
    ensures buf[..] == Sanitized(old(buf[..]))
  {
    ghost var original := buf[..];
    var n := 0;
    while n < buf.Length
      invariant 0 <= n <= buf.Length
      invariant forall k :: 0 <= k < n ==> buf[k] == SanitizeChar(original[k])
      invariant forall k :: n <= k < buf.Length ==> buf[k] == original[k]
    {
      if buf[n] == '-' {
        buf[n] := '_';
      }
      n := n + 1;
    }
  }

  /** compute_object_path_from_basename: the basename, rewritten in place
      '-' by '_', under DevicesDir. */
  method ComputeObjectPathFromBasename(nativePathBasename: string) returns (objectPath: string)
    ensures objectPath == ObjectPathOf(nativePathBasename)
  {
    var basename := PathBasename(nativePathBasename);
    var buf := new char[|basename|](i requires 0 <= i < |basename| => basename[i]);
    assert buf[..] == basename;
    SanitizeInPlace(buf);
    objectPath := BuildDevicesPath(buf[..]);
  }

  /** Every object path is DevicesDir followed by the sanitized basename
      (DevicesDir alone when the basename is "/"), so it holds no '-' after
      DevicesDir. */
  lemma ObjectPathShape(nativePathBasename: string)
    ensures var b := PathBasename(nativePathBasename);
      ObjectPathOf(nativePathBasename) == if b == "/" then DevicesDir else DevicesDir + Sanitized(b)
    ensures var p := ObjectPathOf(nativePathBasename);
      HasPrefix(p, DevicesDir) && '-' !in p[|DevicesDir|..]
  {
    var b := Sanitized(PathBasename(nativePathBasename));
    var p := ObjectPathOf(nativePathBasename);
    if PathBasename(nativePathBasename) == "/" {
      assert b[0] == '/';
    }
    if b == "/" {
      assert p[|DevicesDir|..] == [];
    } else {
      assert p[|DevicesDir|..] == b;
    }
  }

  /** compute_object_path: the object path of a device from its native
      (sysfs) path. */
  method ComputeObjectPath(nativePath: string) returns (objectPath: string)
    ensures objectPath == ObjectPathOf(nativePath)
  {
    var basename := PathBasename(nativePath);
    objectPath := ComputeObjectPathFromBasename(basename);
    PathBasenameIdempotent(nativePath);
  }

  /** A character the D-Bus Specification allows in an element of an object
      path: [A-Za-z0-9_]. */
  predicate IsElementChar(c: char) {
    ('A' <= c <= 'Z') || ('a' <= c <= 'z') || ('0' <= c <= '9') || c == '_'
  }

  /** The "Valid Object Paths" rule of the D-Bus Specification: "/" alone,
      or a '/' followed by non-empty elements of element characters
      separated by single '/', with no trailing '/'. */
  predicate IsValidObjectPath(p: string) {
    p == "/" ||
    (|p| >= 2 && p[0] == '/' && p[|p| - 1] != '/' &&
     (forall i :: 0 <= i < |p| ==> p[i] == '/' || IsElementChar(p[i])) &&
     (forall i :: 0 <= i < |p| - 1 ==> p[i] == '/' ==> p[i + 1] != '/'))
  }

  /** A device name made only of element characters and '-', such as the
      "dm-0" the sanitizer was written for. */
  predicate IsPlainDeviceName(b: string) {
    b != [] && forall i :: 0 <= i < |b| ==> IsElementChar(b[i]) || b[i] == '-'
  }

  /** The characters of DevicesDir: '/' at both ends, element characters
      between. */
  lemma DevicesDirChars()
    ensures |DevicesDir| == 9 && DevicesDir[0] == '/' && DevicesDir[8] == '/'
    ensures forall i :: 0 < i < 8 ==> IsElementChar(DevicesDir[i])
  {
    assert DevicesDir == ['/', 'd', 'e', 'v', 'i', 'c', 'e', 's', '/'];
  }

  /** DevicesDir followed by a non-empty run of element characters is a
      valid object path. */
  lemma ValidUnderDevicesDir(x: string)
    requires x != [] && forall i :: 0 <= i < |x| ==> IsElementChar(x[i])
    ensures IsValidObjectPath(DevicesDir + x)
  {
    DevicesDirChars();
    var p := DevicesDir + x;
    forall i | 0 <= i < |p| ensures p[i] == '/' || IsElementChar(p[i]) {
      if i >= 9 {
        assert p[i] == x[i - 9];
      }
    }
    forall i | 0 <= i < |p| - 1 ensures p[i] == '/' ==> p[i + 1] != '/' {
      if i >= 8 {
        assert p[i + 1] == x[i - 8];
      }
    }
  }

  /** For plain device names the object path is a valid D-Bus object path. */
  lemma ObjectPathValid(b: string)
    requires IsPlainDeviceName(b)
    ensures IsValidObjectPath(ObjectPathOf(b))
  {
    assert '/' !in b by {
      forall i | 0 <= i < |b| ensures b[i] != '/' {
      }
    }
    ObjectPathOfName(b);
    ValidUnderDevicesDir(Sanitized(b));
  }

  /** The empty name has basename ".", so its object path ends in '.'. */
  lemma EmptyNameObjectPathInvalid()
    ensures ObjectPathOf([]) == DevicesDir + "."
    ensures !IsValidObjectPath(ObjectPathOf([]))
  {
    ObjectPathShape([]);
    assert Sanitized(".") == ".";
    var p := ObjectPathOf([]);
    assert !IsElementChar(p[|p| - 1]);
  }

  /** Any other device name gets an invalid object path: the sanitizer
      repairs '-' and nothing else, so the "cciss!c0d0" the kernel lists for
      a cciss controller disk becomes "/devices/cciss!c0d0", and the empty
      name, whose basename is ".", becomes "/devices/.". */
  lemma ObjectPathInvalid(b: string)
    requires '/' !in b && !IsPlainDeviceName(b)
    ensures !IsValidObjectPath(ObjectPathOf(b))
  {
    if b == [] {
      EmptyNameObjectPathInvalid();
      return;
    }
    ObjectPathOfName(b);
    var p := ObjectPathOf(b);
    var i :| 0 <= i < |b| && !IsElementChar(b[i]) && b[i] != '-';
    var j := |DevicesDir| + i;
    assert b[i] != '/';
    assert p[j] == Sanitized(b)[i] == b[i];
    assert !(p[j] == '/' || IsElementChar(p[j]));
    assert p != "/" by {
      assert |p| > 1;
    }
  }

  /** Distinct names can share an object path: a name with a '-' (such as
      "dm-0") and the same name with '_' in its place ("dm_0") both map to
      the same object path. */
  lemma ObjectPathCollision(b: string)
    requires b != [] && '/' !in b
    ensures ObjectPathOf(Sanitized(b)) == ObjectPathOf(b)
    ensures '-' in b ==> Sanitized(b) != b
  {
    var t := Sanitized(b);
    SanitizedSlashes(b);
    PathBasenameOfName(b);
    PathBasenameOfName(t);
    SanitizedIdempotent(b);
    if '-' in b {
      var i :| 0 <= i < |b| && b[i] == '-';
      assert t[i] == '_';
    }
  }

  /** Sanitizing twice is sanitizing once. */
  lemma SanitizedIdempotent(s: string)
    ensures Sanitized(Sanitized(s)) == Sanitized(s)
  {
  }

  /** Names whose sanitized basenames differ get different object paths. */
  lemma ObjectPathsDistinct(a: string, b: string)
    requires Sanitized(PathBasename(a)) != Sanitized(PathBasename(b))
    ensures ObjectPathOf(a) != ObjectPathOf(b)
  {
    var sa, sb := Sanitized(PathBasename(a)), Sanitized(PathBasename(b));
    var pa, pb := ObjectPathOf(a), ObjectPathOf(b);
    if sa != "/" && sb != "/" {
      assert pa[|DevicesDir|..] == sa && pb[|DevicesDir|..] == sb;
    } else {
      assert |sa| > 0 && |sb| > 0;
      assert |pa| != |pb|;
    }
  }
}
