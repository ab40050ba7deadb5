/** POSIX path strings and the file system, as far as the modelled code uses them.

    The functions follow Python's `posixpath` (join, dirname, isabs,
    expanduser) and `str.replace`; the file system is the set of paths that
    exist, split into directories and other files. */
module Paths {
  import opened PyValues

  const Sep: char := '/'

  predicate StartsWith(s: string, prefix: string) {
    |prefix| <= |s| && s[..|prefix|] == prefix
  }

  predicate EndsWith(s: string, suffix: string) {
    |suffix| <= |s| && s[|s| - |suffix|..] == suffix
  }

  /** sub occurs in s at index i. */
  predicate OccursAt(s: string, sub: string, i: nat) {
    i + |sub| <= |s| && s[i..i + |sub|] == sub
  }

  /** `sub in s` for strings. */
  predicate Contains(s: string, sub: string) {
    exists i: nat | i <= |s| - |sub| :: OccursAt(s, sub, i)
  }

  lemma ContainsTail(s: string, sub: string)
    requires s != []
    ensures Contains(s[1..], sub) ==> Contains(s, sub)
    ensures StartsWith(s, sub) ==> Contains(s, sub)
  {
    if Contains(s[1..], sub) {
      var i: nat :| i <= |s[1..]| - |sub| && OccursAt(s[1..], sub, i);
      assert OccursAt(s, sub, i + 1);
    }
    if StartsWith(s, sub) {
      assert OccursAt(s, sub, 0);
    }
  }

  /** os.path.isabs */
  predicate IsAbs(p: string) {
    StartsWith(p, "/")
  }

  /** os.path.join(a, b) for two string arguments. */
  function Join(a: string, b: string): (r: string)
    ensures IsAbs(b) ==> r == b
    ensures !IsAbs(b) ==> StartsWith(r, a) && EndsWith(r, b)
  {
    if IsAbs(b) then b
    else if a == "" || EndsWith(a, "/") then a + b
    else a + "/" + b
  }

  /** s.rstrip('/') */
  function RStripSep(s: string): (r: string)
    ensures |r| <= |s| && r == s[..|r|]
    ensures r == "" || r[|r| - 1] != Sep
    ensures forall i | |r| <= i < |s| :: s[i] == Sep
  {
    if s != [] && s[|s| - 1] == Sep then RStripSep(s[..|s| - 1]) else s
  }

  /** Index just after the last separator of s, 0 when there is none
      (`s.rfind('/') + 1`). */
  function AfterLastSep(s: string): (i: nat)
    ensures i <= |s|
    ensures i > 0 ==> s[i - 1] == Sep
    ensures forall j | i <= j < |s| :: s[j] != Sep
  {
    if s == [] then 0
    else if s[|s| - 1] == Sep then |s|
    else AfterLastSep(s[..|s| - 1])
  }

  predicate AllSeps(s: string) {
    forall i | 0 <= i < |s| :: s[i] == Sep
  }

  /** os.path.dirname */
  function DirName(p: string): (r: string)
    ensures |r| <= |p| && r == p[..|r|]
  {
    var head := p[..AfterLastSep(p)];
    if head != "" && !AllSeps(head) then RStripSep(head) else head
  }

  /** Home directories that os.path.expanduser consults: $HOME for `~`, and
      the password database for `~name`. */
  datatype UserDirs = UserDirs(home: string, byName: map<string, string>)

  /** Index of the first separator at or after 1, or |s| (`path.find('/', 1)`). */
  function FirstSepFrom1(s: string): (i: nat)
    requires |s| >= 1
    ensures 1 <= i <= |s|
    ensures forall j | 1 <= j < i :: s[j] != Sep
    ensures i < |s| ==> s[i] == Sep
    decreases |s|
  {
    if |s| == 1 then 1
    else if s[1] == Sep then 1
    else 1 + FirstSepFrom1(s[1..])
  }

  /** os.path.expanduser */
  function ExpandUser(path: string, dirs: UserDirs): (r: string)
    ensures !StartsWith(path, "~") ==> r == path
  {
    if !StartsWith(path, "~") then path
    else
      var i := FirstSepFrom1(path);
      var name := path[1..i];
      if i != 1 && name !in dirs.byName then path
      else
        var userhome := RStripSep(if i == 1 then dirs.home else dirs.byName[name]);
        var expanded := userhome + path[i..];
        if expanded == "" then "/" else expanded
  }

  /** s.replace(pattern, "") for a non-empty pattern: occurrences are removed
      left to right without overlapping, in one pass. */
  function RemoveAll(s: string, pattern: string): (r: string)
    requires pattern != ""
    ensures |r| <= |s|
    ensures !Contains(s, pattern) ==> r == s
    decreases |s|
  {
    if s == [] then []
    else if StartsWith(s, pattern) then
      ContainsTail(s, pattern);
      RemoveAll(s[|pattern|..], pattern)
    else
      ContainsTail(s, pattern);
      [s[0]] + RemoveAll(s[1..], pattern)
  }

  /** What the modelled code can observe of the file system: os.path.exists
      and os.path.isdir. */
  datatype FileSystem = FileSystem(dirs: set<string>, files: set<string>) {
    predicate Exists(p: string) {
      p in dirs || p in files
    }
    predicate IsDir(p: string) {
      p in dirs
    }
  }
}
