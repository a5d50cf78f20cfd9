/**
 * The remote-path mapping of iPhoneSync.Sync: a local file found under the
 * source directory is mapped to a folder and a file path on the device, below
 * the target directory, in the device's forward-slash convention.
 *
 * The .NET library calls the mapping is built from (String.IndexOf,
 * String.Substring, FileInfo.DirectoryName, Path.GetFileName, Path.Combine,
 * String.Replace) are modelled here as functions on strings.
 */
module Paths {
  import opened Results

  /** The two characters Windows accepts as directory separators. */
  const Separators: set<char> := {'\\', '/'}

  /** The characters Path.GetFileName stops at: both separators and the volume separator. */
  const NameBoundaries: set<char> := {'\\', '/', ':'}

  predicate HasPrefix(s: string, prefix: string) {
    |prefix| <= |s| && s[..|prefix|] == prefix
  }

  predicate HasSuffix(s: string, suffix: string) {
    |suffix| <= |s| && s[|s| - |suffix|..] == suffix
  }

  /** No character of `s` is one of `stops`. */
  predicate Avoids(s: string, stops: set<char>) {
    forall i :: 0 <= i < |s| ==> s[i] !in stops
  }

  /** The path has a directory part: some separator occurs in it. */
  predicate HasDirectory(file: string) {
    exists i :: 0 <= i < |file| && file[i] in Separators
  }

  /** Index of the last character of `s` that is one of `stops`, or -1. */
  function LastIndexOfAny(s: string, stops: set<char>): (r: int)
    ensures -1 <= r < |s|
    ensures r >= 0 ==> s[r] in stops
    ensures forall j :: r < j < |s| ==> s[j] !in stops
    decreases |s|
  {
    if |s| == 0 then -1
    else if s[|s| - 1] in stops then |s| - 1
    else LastIndexOfAny(s[..|s| - 1], stops)
  }

  /** The last stop character of `a + [c] + b` is `c` when `b` has none. */
  lemma {:induction false} LastIndexOfAnyAt(a: string, c: char, b: string, stops: set<char>)
    requires c in stops && Avoids(b, stops)
    ensures LastIndexOfAny(a + [c] + b, stops) == |a|
    decreases |b|
  {
    var s := a + [c] + b;
    if b == [] {
      assert s[|s| - 1] == c;
    } else {
      var b' := b[..|b| - 1];
      assert s[|s| - 1] == b[|b| - 1];
      assert s[..|s| - 1] == a + [c] + b';
      LastIndexOfAnyAt(a, c, b', stops);
    }
  }

  /** `sub` occurs in `s` starting at index `i`. */
  predicate OccursAt(s: string, sub: string, i: int) {
    0 <= i && i + |sub| <= |s| && s[i..i + |sub|] == sub
  }

  function IndexFrom(s: string, sub: string, k: nat): (r: int)
    requires k <= |s|
    ensures r == -1 || (k <= r && OccursAt(s, sub, r))
    ensures forall j :: k <= j && (r == -1 || j < r) ==> !OccursAt(s, sub, j)
    decreases |s| - k
  {
    if k + |sub| > |s| then -1
    else if s[k..k + |sub|] == sub then k
    else IndexFrom(s, sub, k + 1)
  }

  /**
   * String.IndexOf(string): the index of the FIRST occurrence of `sub` in
   * `s`, or -1 when there is none (the empty string occurs at 0).
   */
  function IndexOf(s: string, sub: string): (r: int)
    ensures r == -1 <==> forall j :: !OccursAt(s, sub, j)
    ensures r >= 0 ==> OccursAt(s, sub, r) && forall j :: 0 <= j < r ==> !OccursAt(s, sub, j)
  {
    IndexFrom(s, sub, 0)
  }

  /** The first occurrence is at `i` when it occurs there and nowhere before. */
  lemma IndexOfIs(s: string, sub: string, i: nat)
    requires OccursAt(s, sub, i)
    requires forall j :: 0 <= j < i ==> !OccursAt(s, sub, j)
    ensures IndexOf(s, sub) == i
  {
    assert IndexOf(s, sub) != -1;
  }

  /** FileInfo.DirectoryName: everything before the last separator. */
  function DirectoryName(file: string): (d: string)
    requires HasDirectory(file)
    ensures HasPrefix(file, d) && |d| < |file| && file[|d|] in Separators
    ensures forall j :: |d| < j < |file| ==> file[j] !in Separators
  {
    assert exists i :: 0 <= i < |file| && file[i] in Separators;
    file[..LastIndexOfAny(file, Separators)]
  }

  /** Path.GetFileName: everything after the last separator or volume separator. */
  function FileName(file: string): (n: string)
    ensures HasSuffix(file, n) && Avoids(n, NameBoundaries)
    ensures |n| < |file| ==> file[|file| - |n| - 1] in NameBoundaries
  {
    file[LastIndexOfAny(file, NameBoundaries) + 1..]
  }

  /** Path.IsPathRooted on Windows: a leading separator or a drive letter. */
  predicate IsRooted(p: string) {
    (|p| >= 1 && p[0] in Separators) || (|p| >= 2 && p[1] == ':')
  }

  /**
   * Path.Combine(a, b) of the .NET Framework, without its invalid-character
   * checks: an empty part yields the other, a rooted `b` replaces `a`, and a
   * '\' is inserted unless `a` already ends in a separator or ':'.
   */
  function Combine(a: string, b: string): (r: string)
    ensures HasSuffix(r, b)
    ensures !IsRooted(b) ==> HasPrefix(r, a)
    ensures |r| <= |a| + |b| + 1
    ensures IsRooted(b) ==> r == b
    ensures !IsRooted(b) ==> r == a + b || r == a + "\\" + b
    ensures r == a + "\\" + b <==> |a| > 0 && |b| > 0 && !IsRooted(b) && a[|a| - 1] !in NameBoundaries
  {
    if |b| == 0 then assert a + b == a; a
    else if |a| == 0 then assert a + b == b; b
    else if IsRooted(b) then b
    else if a[|a| - 1] in NameBoundaries then a + b
    else a + "\\" + b
  }

  /** String.Replace(@"\", "/"): every backslash becomes a forward slash. */
  function ToDeviceSeparators(s: string): (r: string)
    ensures |r| == |s| && '\\' !in r
    ensures forall i :: 0 <= i < |s| ==> r[i] == (if s[i] == '\\' then '/' else s[i])
  {
    seq(|s|, i requires 0 <= i < |s| => if s[i] == '\\' then '/' else s[i])
  }

  lemma ToDeviceSeparatorsConcat(a: string, b: string)
    ensures ToDeviceSeparators(a + b) == ToDeviceSeparators(a) + ToDeviceSeparators(b)
  {
    var l, r := ToDeviceSeparators(a + b), ToDeviceSeparators(a) + ToDeviceSeparators(b);
    assert |l| == |r|;
    forall i | 0 <= i < |l| ensures l[i] == r[i] {
      if i < |a| {
        assert (a + b)[i] == a[i];
      } else {
        assert (a + b)[i] == b[i - |a|];
      }
    }
  }

  /** A string without backslashes is left as it is. */
  lemma ToDeviceSeparatorsKeeps(s: string)
    requires '\\' !in s
    ensures ToDeviceSeparators(s) == s
  {
    var r := ToDeviceSeparators(s);
    forall i | 0 <= i < |s| ensures r[i] == s[i] {
      assert s[i] in s;
    }
  }

  /** Substring threw: the start index lies beyond the directory name. */
  datatype MapError = StartBeyondDirectory(start: int, length: nat)

  /** Index inside the directory name where the mirrored relative part starts. */
  function RelativeStart(root: string, file: string): int {
    IndexOf(file, root) + |root| + 1
  }

  /**
   * The remote folder of `file`: the part of its directory name after the
   * first occurrence of the source directory's name and one separator,
   * joined onto the target directory, with forward slashes.
   */
  function RemoteFolder(target: string, root: string, file: string): (r: Result<string, MapError>)
    requires HasDirectory(file)
    ensures r.Ok? <==> RelativeStart(root, file) <= |DirectoryName(file)|
    ensures r.Err? ==> r.error == StartBeyondDirectory(RelativeStart(root, file), |DirectoryName(file)|)
    ensures r.Ok? ==> '\\' !in r.value
  {
    var start := RelativeStart(root, file);
    var dir := DirectoryName(file);
    if start > |dir| then Err(StartBeyondDirectory(start, |dir|))
    else Ok(ToDeviceSeparators(Combine(target, dir[start..])))
  }

  /** The remote file: the file's name joined onto its remote folder, with forward slashes. */
  function RemoteFile(folder: string, file: string): string {
    ToDeviceSeparators(Combine(folder, FileName(file)))
  }

  /** A remote file has no backslash and ends with the local file's name. */
  lemma RemoteFileEndsWithName(folder: string, file: string)
    ensures '\\' !in RemoteFile(folder, file)
    ensures HasSuffix(RemoteFile(folder, file), FileName(file))
  {
    var name := FileName(file);
    var joined := Combine(folder, name);
    assert '\\' !in name by {
      assert Avoids(name, NameBoundaries);
    }
    ToDeviceSeparatorsConcat(joined[..|joined| - |name|], name);
    assert joined == joined[..|joined| - |name|] + name;
    ToDeviceSeparatorsKeeps(name);
  }

  /** Below a folder without backslashes, the remote file starts with that folder. */
  lemma RemoteFileBelowFolder(folder: string, file: string)
    requires '\\' !in folder
    ensures HasPrefix(RemoteFile(folder, file), folder)
  {
    FileNameNotRooted(file);
    var joined := Combine(folder, FileName(file));
    assert joined == folder + joined[|folder|..];
    NormalisedKeepsPrefix(folder, joined[|folder|..]);
  }

  /** A file name holds no separator or ':', so it is never rooted. */
  lemma FileNameNotRooted(file: string)
    ensures !IsRooted(FileName(file))
  {
    var name := FileName(file);
    if |name| >= 1 {
      assert name[0] !in NameBoundaries;
    }
    if |name| >= 2 {
      assert name[1] !in NameBoundaries;
    }
  }

  /** Normalising a path whose first part has no backslash keeps that part in front. */
  lemma NormalisedKeepsPrefix(a: string, b: string)
    requires '\\' !in a
    ensures HasPrefix(ToDeviceSeparators(a + b), a)
  {
    ToDeviceSeparatorsConcat(a, b);
    ToDeviceSeparatorsKeeps(a);
    assert (a + ToDeviceSeparators(b))[..|a|] == a;
  }

  /** Joining with an inserted '\' and normalising puts a '/' between the normalised parts. */
  lemma ToDeviceSeparatorsJoin(a: string, b: string)
    ensures ToDeviceSeparators(a + "\\" + b) == ToDeviceSeparators(a) + "/" + ToDeviceSeparators(b)
  {
    var l, r := ToDeviceSeparators(a + "\\" + b), ToDeviceSeparators(a) + "/" + ToDeviceSeparators(b);
    var s := a + "\\" + b;
    assert |l| == |r|;
    forall i | 0 <= i < |l| ensures l[i] == r[i] {
      if i < |a| {
        assert s[i] == a[i];
      } else if i == |a| {
        assert s[i] == '\\';
      } else {
        assert s[i] == b[i - |a| - 1];
      }
    }
  }

  /**
   * Below an ordinary remote folder (not empty, not ending in a separator or
   * ':'), the remote file is the folder, one '/', and the file's name.
   */
  lemma RemoteFileJoins(folder: string, file: string)
    requires |folder| > 0 && folder[|folder| - 1] !in NameBoundaries
    requires |FileName(file)| > 0
    ensures RemoteFile(folder, file) == ToDeviceSeparators(folder) + "/" + FileName(file)
  {
    var name := FileName(file);
    assert name[0] !in NameBoundaries;
    assert |name| >= 2 ==> name[1] !in NameBoundaries;
    assert Combine(folder, name) == folder + "\\" + name;
    ToDeviceSeparatorsJoin(folder, name);
    assert '\\' !in name by {
      assert Avoids(name, NameBoundaries);
    }
    ToDeviceSeparatorsKeeps(name);
  }

  /**
   * The mirroring promise: a file `prefix + root + \ + rel + \ + name`, where
   * `root` first occurs right after `prefix`, maps to `target/rel` and
   * `target/rel/name` with forward slashes.
   */
  lemma MirrorsRelativeDirectory(prefix: string, root: string, rel: string, name: string, target: string)
    requires forall j :: 0 <= j < |prefix| ==> !OccursAt(prefix + root + "\\" + rel + "\\" + name, root, j)
    requires |rel| > 0 && !IsRooted(rel) && rel[|rel| - 1] !in NameBoundaries
    requires |name| > 0 && Avoids(name, NameBoundaries)
    requires |target| > 0 && target[|target| - 1] !in NameBoundaries
    ensures HasDirectory(prefix + root + "\\" + rel + "\\" + name)
    ensures RemoteFolder(target, root, prefix + root + "\\" + rel + "\\" + name)
         == Ok(ToDeviceSeparators(target) + "/" + ToDeviceSeparators(rel))
    ensures RemoteFile(ToDeviceSeparators(target) + "/" + ToDeviceSeparators(rel), prefix + root + "\\" + rel + "\\" + name)
         == ToDeviceSeparators(target) + "/" + ToDeviceSeparators(rel) + "/" + name
  {
    var file := prefix + root + "\\" + rel + "\\" + name;
    MirroredNames(prefix + root + "\\" + rel, name);
    MirroredStart(prefix, root, rel, name);
    var dir := prefix + root + "\\" + rel;
    assert dir[|prefix| + |root| + 1..] == rel;
    assert Combine(target, rel) == target + "\\" + rel;
    ToDeviceSeparatorsJoin(target, rel);
    var folder := ToDeviceSeparators(target) + "/" + ToDeviceSeparators(rel);
    assert folder[|folder| - 1] == ToDeviceSeparators(rel)[|rel| - 1];
    RemoteFileJoins(folder, file);
    ToDeviceSeparatorsKeeps(folder);
  }

  /** The directory name of `dir + \ + name` is `dir` and its file name is `name`. */
  lemma MirroredNames(dir: string, name: string)
    requires Avoids(name, NameBoundaries)
    ensures HasDirectory(dir + "\\" + name)
    ensures DirectoryName(dir + "\\" + name) == dir && FileName(dir + "\\" + name) == name
  {
    var file := dir + "\\" + name;
    assert file[|dir|] in Separators;
    assert Avoids(name, Separators) by {
      forall i | 0 <= i < |name| ensures name[i] !in Separators {
        assert name[i] !in NameBoundaries;
      }
    }
    LastIndexOfAnyAt(dir, '\\', name, Separators);
    LastIndexOfAnyAt(dir, '\\', name, NameBoundaries);
    assert file[..|dir|] == dir;
  }

  /** The relative part starts one separator after the first occurrence of `root`, which follows `prefix`. */
  lemma MirroredStart(prefix: string, root: string, rel: string, name: string)
    requires forall j :: 0 <= j < |prefix| ==> !OccursAt(prefix + root + "\\" + rel + "\\" + name, root, j)
    ensures RelativeStart(root, prefix + root + "\\" + rel + "\\" + name) == |prefix| + |root| + 1
  {
    var file := prefix + root + "\\" + rel + "\\" + name;
    assert file[|prefix|..|prefix| + |root|] == root;
    IndexOfIs(file, root, |prefix|);
  }

  /** The example file C:\a\root\sub\file.txt, with the source directory "root" first occurring after C:\a\. */
  lemma ExampleFileShape()
    ensures "C:\\a\\root\\sub\\file.txt" == "C:\\a\\" + "root" + "\\" + "sub" + "\\" + "file.txt"
    ensures forall j :: 0 <= j < 5 ==> !OccursAt("C:\\a\\root\\sub\\file.txt", "root", j)
  {
    var file := "C:\\a\\root\\sub\\file.txt";
    forall j | 0 <= j < 5 ensures !OccursAt(file, "root", j) {
      assert file[j] != 'r';
    }
  }

  /** C:\a\root\sub\file.txt under the source directory "root" goes to /Dest/sub/file.txt. */
  lemma MapsExampleFile()
    ensures HasDirectory("C:\\a\\root\\sub\\file.txt")
    ensures RemoteFolder("/Dest", "root", "C:\\a\\root\\sub\\file.txt") == Ok("/Dest/sub")
    ensures RemoteFile("/Dest/sub", "C:\\a\\root\\sub\\file.txt") == "/Dest/sub/file.txt"
  {
    ExampleFileShape();
    assert Avoids("file.txt", NameBoundaries);
    MirrorsRelativeDirectory("C:\\a\\", "root", "sub", "file.txt", "/Dest");
    ExampleFolder();
  }

  /** The remote folder and file of the example, from the normalised target and relative folder. */
  lemma ExampleFolder()
    ensures ToDeviceSeparators("/Dest") + "/" + ToDeviceSeparators("sub") == "/Dest/sub"
    ensures "/Dest/sub" + "/" + "file.txt" == "/Dest/sub/file.txt"
  {
    ToDeviceSeparatorsKeeps("/Dest");
    ToDeviceSeparatorsKeeps("sub");
    var whole := "/Dest/sub/file.txt";
    assert whole == whole[..9] + whole[9..];
    assert whole[..9] == "/Dest/sub" && whole[9..] == "/" + "file.txt";
  }

  /**
   * The remote folder of a file `dir\name` whose first occurrence of `root`
   * is at `k`: the part of `dir` after that occurrence and one separator,
   * joined onto the target and normalised.
   */
  lemma RemoteFolderAt(target: string, root: string, dir: string, name: string, k: nat)
    requires Avoids(name, NameBoundaries)
    requires OccursAt(dir + "\\" + name, root, k)
    requires forall j :: 0 <= j < k ==> !OccursAt(dir + "\\" + name, root, j)
    requires k + |root| + 1 <= |dir|
    ensures HasDirectory(dir + "\\" + name)
    ensures RemoteFolder(target, root, dir + "\\" + name) == Ok(ToDeviceSeparators(Combine(target, dir[k + |root| + 1..])))
  {
    var file := dir + "\\" + name;
    MirroredNames(dir, name);
    IndexOfIs(file, root, k);
    var start := RelativeStart(root, file);
    assert start == k + |root| + 1;
    assert DirectoryName(file)[start..] == dir[k + |root| + 1..];
  }

  /**
   * The first occurrence of the source directory's name can lie inside an
   * earlier folder name. C:\myroot\root\f.txt sits directly in the source
   * directory "root", yet it matches inside "myroot": instead of throwing as
   * FileInRootFails describes, it is placed in /Dest/root.
   */
  lemma EarlierMatchMisplaces()
    ensures HasDirectory("C:\\myroot\\root\\f.txt")
    ensures RemoteFolder("/Dest", "root", "C:\\myroot\\root\\f.txt") == Ok("/Dest/root")
  {
    MisplacedShape();
    RemoteFolderAt("/Dest", "root", "C:\\myroot\\root", "f.txt", 5);
    JoinedOntoDest();
  }

  /** The strings of EarlierMatchMisplaces: "root" first occurs at 5, inside "myroot". */
  lemma MisplacedShape()
    ensures "C:\\myroot\\root\\f.txt" == "C:\\myroot\\root" + "\\" + "f.txt"
    ensures Avoids("f.txt", NameBoundaries)
    ensures OccursAt("C:\\myroot\\root" + "\\" + "f.txt", "root", 5)
    ensures forall j :: 0 <= j < 5 ==> !OccursAt("C:\\myroot\\root" + "\\" + "f.txt", "root", j)
    ensures "C:\\myroot\\root"[10..] == "root"
  {
    FirstMatchAt("C:\\myroot\\root" + "\\" + "f.txt", 5);
  }

  /**
   * A match inside a longer folder name can leave a relative part that starts
   * with a separator, which Path.Combine treats as rooted, so the target is
   * dropped: C:\root2\root\sub\f.txt goes to the device folder /root/sub.
   */
  lemma EarlierMatchDropsTarget()
    ensures HasDirectory("C:\\root2\\root\\sub\\f.txt")
    ensures RemoteFolder("/Dest", "root", "C:\\root2\\root\\sub\\f.txt") == Ok("/root/sub")
  {
    DroppedShape();
    RemoteFolderAt("/Dest", "root", "C:\\root2\\root\\sub", "f.txt", 3);
    RootedNormalised();
  }

  /** The strings of EarlierMatchDropsTarget: "root" first occurs at 3, inside "root2". */
  lemma DroppedShape()
    ensures "C:\\root2\\root\\sub\\f.txt" == "C:\\root2\\root\\sub" + "\\" + "f.txt"
    ensures Avoids("f.txt", NameBoundaries)
    ensures OccursAt("C:\\root2\\root\\sub" + "\\" + "f.txt", "root", 3)
    ensures forall j :: 0 <= j < 3 ==> !OccursAt("C:\\root2\\root\\sub" + "\\" + "f.txt", "root", j)
    ensures "C:\\root2\\root\\sub"[8..] == "\\root\\sub"
  {
    FirstMatchAt("C:\\root2\\root\\sub" + "\\" + "f.txt", 3);
  }

  /** The rooted relative part replaces the target and is normalised to /root/sub. */
  lemma RootedNormalised()
    ensures ToDeviceSeparators(Combine("/Dest", "\\root\\sub")) == "/root/sub"
  {
    assert IsRooted("\\root\\sub");
    var r := ToDeviceSeparators("\\root\\sub");
    assert |r| == 9;
    assert r[0] == '/' && r[5] == '/';
    assert r == "/root/sub";
  }

  /** The relative part "root" is joined onto /Dest with one '/'. */
  lemma JoinedOntoDest()
    ensures ToDeviceSeparators(Combine("/Dest", "root")) == "/Dest/root"
  {
    ToDeviceSeparatorsJoin("/Dest", "root");
    ToDeviceSeparatorsKeeps("/Dest");
    ToDeviceSeparatorsKeeps("root");
    var whole := "/Dest/root";
    assert whole == "/Dest/" + whole[6..];
  }

  /** "root" first occurs at `i` in `file` when it occurs there and no earlier character is an 'r'. */
  lemma FirstMatchAt(file: string, i: nat)
    requires OccursAt(file, "root", i)
    requires forall j :: 0 <= j < i ==> file[j] != 'r'
    ensures forall j :: 0 <= j < i ==> !OccursAt(file, "root", j)
  {
    forall j | 0 <= j < i ensures !OccursAt(file, "root", j) {
      assert "root"[0] == 'r';
    }
  }

  /**
   * A file directly inside the source directory makes Substring throw: the
   * start index is one past the end of its directory name.
   */
  lemma FileInRootFails(prefix: string, root: string, name: string, target: string)
    requires forall j :: 0 <= j < |prefix| ==> !OccursAt(prefix + root + "\\" + name, root, j)
    requires Avoids(name, Separators)
    ensures HasDirectory(prefix + root + "\\" + name)
    ensures RemoteFolder(target, root, prefix + root + "\\" + name)
         == Err(StartBeyondDirectory(|prefix| + |root| + 1, |prefix| + |root|))
  {
    var dir := prefix + root;
    var file := dir + "\\" + name;
    assert file == prefix + root + "\\" + name;
    assert file[|dir|] in Separators;
    LastIndexOfAnyAt(dir, '\\', name, Separators);
    assert file[..|dir|] == dir;
    assert file[|prefix|..|prefix| + |root|] == root;
    IndexOfIs(file, root, |prefix|);
  }
}
