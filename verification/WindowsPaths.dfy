/** Native spelling of Windows paths (crates/acp_thread/src/mention.rs, `to_native_windows_path`). */
module WindowsPaths {
  import opened Wrappers

  predicate IsLower(c: char) { 'a' <= c <= 'z' }

  predicate IsUpper(c: char) { 'A' <= c <= 'Z' }

  predicate IsAlphabetic(c: char) { IsLower(c) || IsUpper(c) }

  function ToUpper(c: char): char {
    if IsLower(c) then c - 'a' + 'A' else c
  }

  predicate IsSeparator(c: char) { c == '/' || c == '\\' }

  /** `replace('/', "\\")`. */
  function Backslashed(s: string): (r: string)
    ensures |r| == |s|
    ensures forall i | 0 <= i < |s| :: r[i] == if s[i] == '/' then '\\' else s[i]
  {
    if s == "" then "" else [if s[0] == '/' then '\\' else s[0]] + Backslashed(s[1..])
  }

  function JoinDrive(drive: char, rest: string): string {
    [ToUpper(drive)] + ":\\" + Backslashed(rest)
  }

  function ToNative(path: string): Option<string> {
    if |path| >= 4 && path[0] == '/' && IsAlphabetic(path[1]) && path[2] == ':' && IsSeparator(path[3]) then
      Some(JoinDrive(path[1], path[4..]))
    else if |path| >= 3 && path[0] == '/' && IsLower(path[1]) && IsSeparator(path[2]) then
      Some(JoinDrive(path[1], path[3..]))
    else if |path| >= 2 && path[1] == ':' && IsAlphabetic(path[0]) then
      if IsUpper(path[0]) && '/' !in path then None
      else Some([ToUpper(path[0])] + ":" + Backslashed(path[2..]))
    else if '/' in path then Some(Backslashed(path))
    else None
  }

  /** How callers use it: no change means the input itself. */
  function Normalize(path: string): string {
    var native := ToNative(path);
    if native.Some? then native.value else path
  }

  /** No forward slash, and a drive letter only in upper case. */
  predicate IsNative(path: string) {
    && '/' !in path
    && (|path| >= 2 && path[1] == ':' && IsAlphabetic(path[0]) ==> IsUpper(path[0]))
  }

  /** "Needs no changes" means native, and every change leads to a native path. */
  lemma NativeIsNormalForm(path: string)
    ensures ToNative(path).None? <==> IsNative(path)
    ensures IsNative(Normalize(path))
    ensures Normalize(Normalize(path)) == Normalize(path)
  {
    var native := ToNative(path);
    if native.Some? {
      var n := native.value;
      forall i | 0 <= i < |n| ensures n[i] != '/' {
      }
    }
  }

  lemma UrlSpelling(drive: char, rest: string)
    requires IsAlphabetic(drive)
    ensures Normalize(['/', drive, ':', '/'] + rest) == JoinDrive(drive, rest)
  {
  }

  lemma GitBashSpelling(drive: char, rest: string)
    requires IsLower(drive)
    ensures Normalize(['/', drive, '/'] + rest) == JoinDrive(drive, rest)
  {
  }

  lemma SlashSpelling(drive: char, rest: string)
    requires IsAlphabetic(drive)
    ensures Normalize([drive, ':', '/'] + rest) == JoinDrive(drive, rest)
  {
  }

  lemma NativeSpelling(drive: char, rest: string)
    requires IsAlphabetic(drive)
    ensures Normalize([drive, ':', '\\'] + rest) == JoinDrive(drive, rest)
  {
    var path := [drive, ':', '\\'] + rest;
    assert path[0] != '/';
    assert path[2..] == ['\\'] + rest;
    assert Backslashed(path[2..]) == ['\\'] + Backslashed(rest);
    assert [ToUpper(drive)] + ":" + (['\\'] + Backslashed(rest)) == JoinDrive(drive, rest);
    if '/' !in path {
      forall i | 0 <= i < |rest| ensures rest[i] != '/' {
        assert path[i + 3] == rest[i];
      }
      assert Backslashed(rest) == rest;
    }
  }

  /** The URL-style, Git Bash and native spellings of one path become the same path. */
  lemma SpellingsAgree(drive: char, rest: string)
    requires IsAlphabetic(drive)
    ensures Normalize(['/', drive, ':', '/'] + rest) == Normalize([drive, ':', '/'] + rest)
    ensures Normalize([drive, ':', '\\'] + rest) == Normalize([drive, ':', '/'] + rest)
    ensures IsLower(drive) ==> Normalize(['/', drive, '/'] + rest) == Normalize([drive, ':', '/'] + rest)
  {
    UrlSpelling(drive, rest);
    SlashSpelling(drive, rest);
    NativeSpelling(drive, rest);
    if IsLower(drive) {
      GitBashSpelling(drive, rest);
    }
  }

  /** The path begins like `/C:/` in the URL style, or like `/c/` in the Git Bash style, lower case only. */
  predicate HasDriveInFront(path: string) {
    || (&& |path| >= 4 && path[0] == '/' && ('a' <= path[1] <= 'z' || 'A' <= path[1] <= 'Z') && path[2] == ':'
        && (path[3] == '/' || path[3] == '\\'))
    || (|path| >= 3 && path[0] == '/' && 'a' <= path[1] <= 'z' && (path[2] == '/' || path[2] == '\\'))
  }

  /** Where the rest of such a path begins. */
  function RestAt(path: string): (n: nat)
    requires HasDriveInFront(path)
    ensures n <= |path|
  {
    if path[2] == ':' then 4 else 3
  }

  function Upper(c: char): char {
    if 'a' <= c <= 'z' then c - 'a' + 'A' else c
  }

  /**
    Every character keeps its place, slashes turned and a drive letter in upper case, but for a
    drive in front, which is written anew before the rest.
   */
  lemma NormalizesExactly(path: string)
    ensures HasDriveInFront(path) ==>
              var (out, n) := (Normalize(path), RestAt(path));
              && |out| == |path| - n + 3 && out[0] == Upper(path[1]) && out[1] == ':' && out[2] == '\\'
              && forall i | n <= i < |path| :: out[i - n + 3] == if path[i] == '/' then '\\' else path[i]
    ensures !HasDriveInFront(path) ==>
              var out := Normalize(path);
              && |out| == |path|
              && forall i | 0 <= i < |path| ::
                   out[i] ==
                   if i == 0 && |path| >= 2 && path[1] == ':' then
                     (if path[0] == '/' then '\\' else Upper(path[0]))
                   else if path[i] == '/' then '\\'
                   else path[i]
  {
  }
}
