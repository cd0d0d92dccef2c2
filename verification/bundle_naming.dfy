/** ManifestTools.GetRemoteBundleFileExtension and ManifestTools.GetRemoteBundleFileName:
    the extension of a bundle name (as .NET's Path.GetExtension finds it) and the name a bundle
    file is stored under remotely for the supported output name styles. */
module BundleNaming {
  import opened Results
  import opened Buffer

  /** OutputNameStyle 1: the file hash alone. */
  const HashName: int := 1
  /** OutputNameStyle 4: the bundle name without its extension, '_', then the file hash. */
  const BundleNameHashName: int := 4

  predicate IsDirectorySeparator(c: char) {
    c == '/' || c == '\\'
  }

  /** No character of s[lo..hi] is a '.' or a directory separator. */
  predicate NoDotOrSeparator(s: string, lo: nat, hi: nat)
    requires lo <= hi <= |s|
  {
    forall j :: lo <= j < hi ==> s[j] != '.' && !IsDirectorySeparator(s[j])
  }

  /** `s` has an extension: a '.' that is not its last character, with neither a '.' nor a
      directory separator after it. */
  ghost predicate HasExtension(s: string) {
    exists k :: 0 <= k < |s| - 1 && s[k] == '.' && NoDotOrSeparator(s, k + 1, |s|)
  }

  /** Scans s[..end] backwards for the '.' that starts the extension; stops with -1 at a
      directory separator or at the start. */
  function ExtensionDot(s: string, end: nat): (r: int)
    requires end <= |s|
    ensures -1 <= r < end
    ensures r >= 0 ==> s[r] == '.' && NoDotOrSeparator(s, r + 1, end)
    ensures r < 0 ==> forall k :: 0 <= k < end && s[k] == '.' ==> !NoDotOrSeparator(s, k + 1, end)
    decreases end
  {
    if end == 0 then -1
    else if s[end - 1] == '.' then end - 1
    else if IsDirectorySeparator(s[end - 1]) then -1
    else ExtensionDot(s, end - 1)
  }

  /** Path.GetExtension(bundleName): the text from the extension's '.' to the end, or "" when
      there is none or the '.' is the last character. */
  function GetRemoteBundleFileExtension(bundleName: string): (ext: string)
    ensures ext != "" <==> HasExtension(bundleName)
    ensures ext != "" ==>
      && |ext| >= 2 && ext[0] == '.' && NoDotOrSeparator(ext, 1, |ext|)
      && |ext| <= |bundleName| && bundleName[|bundleName| - |ext|..] == ext
  {
    var dot := ExtensionDot(bundleName, |bundleName|);
    if dot < 0 || dot == |bundleName| - 1 then ""
    else
      assert NoDotOrSeparator(bundleName[dot..], 1, |bundleName| - dot) by {
        forall j | 1 <= j < |bundleName| - dot
          ensures bundleName[dot..][j] != '.' && !IsDirectorySeparator(bundleName[dot..][j])
        {
          assert bundleName[dot..][j] == bundleName[dot + j];
        }
      }
      bundleName[dot..]
  }

  /** string.LastIndexOf(c): the last position of `c` in `s`, or -1. */
  function LastIndexOf(s: string, c: char): (r: int)
    ensures -1 <= r < |s|
    ensures r >= 0 ==> s[r] == c && c !in s[r + 1..]
    ensures r < 0 ==> c !in s
    decreases |s|
  {
    if |s| == 0 then -1
    else if s[|s| - 1] == c then |s| - 1
    else
      var r := LastIndexOf(s[..|s| - 1], c);
      assert s == s[..|s| - 1] + [s[|s| - 1]];
      r
  }

  /** The remote file name of a bundle. Style 1 is the hash with the extension; style 4 is
      the bundle name cut at its last '.' (string.Remove throws when there is none), '_',
      the hash and the extension; any other style is not implemented. */
  function GetRemoteBundleFileName(nameStyle: int32, bundleName: string, fileExtension: string, fileHash: string)
    : (r: Result<string>)
    ensures nameStyle != HashName && nameStyle != BundleNameHashName ==> r == Failure(UnsupportedNameStyle(nameStyle))
    ensures nameStyle == HashName ==> r == Success(fileHash + fileExtension)
    ensures nameStyle == BundleNameHashName ==> (r.Success? <==> '.' in bundleName)
    ensures nameStyle == BundleNameHashName && r.Success? ==>
      exists stem :: r.value == stem + "_" + fileHash + fileExtension
        && |stem| < |bundleName| && bundleName[..|stem|] == stem
        && bundleName[|stem|] == '.' && '.' !in bundleName[|stem| + 1..]
  {
    if nameStyle == HashName then
      Success(fileHash + fileExtension)
    else if nameStyle == BundleNameHashName then
      var lastDot := LastIndexOf(bundleName, '.');
      if lastDot < 0 then Failure(MissingExtensionDot(bundleName))
      else
        var stem := bundleName[..lastDot];
        assert |stem| == lastDot;
        Success(stem + "_" + fileHash + fileExtension)
    else
      Failure(UnsupportedNameStyle(nameStyle))
  }

  /** Appending an extension found by GetRemoteBundleFileExtension to any text keeps it the
      extension of the result. */
  lemma {:induction false} ExtensionAfterAnyPrefix(prefix: string, bundleName: string)
    requires GetRemoteBundleFileExtension(bundleName) != ""
    ensures GetRemoteBundleFileExtension(prefix + GetRemoteBundleFileExtension(bundleName))
         == GetRemoteBundleFileExtension(bundleName)
  {
    var ext := GetRemoteBundleFileExtension(bundleName);
    var s := prefix + ext;
    var k := |prefix|;
    assert s[k] == '.';
    assert s[k + 1..] == ext[1..];
    assert NoDotOrSeparator(s, k + 1, |s|) by {
      forall j | k + 1 <= j < |s| ensures s[j] != '.' && !IsDirectorySeparator(s[j]) {
        assert s[j] == ext[j - k];
      }
    }
    assert HasExtension(s);
    var dot := ExtensionDot(s, |s|);
    assert dot == k;
    assert s[k..] == ext;
  }

  /** The remote file name keeps the bundle's extension, whichever style names it: the remote
      file is recognised by the same extension as the bundle. */
  lemma RemoteNameKeepsExtension(nameStyle: int32, bundleName: string, fileHash: string)
    requires GetRemoteBundleFileExtension(bundleName) != ""
    requires GetRemoteBundleFileName(nameStyle, bundleName, GetRemoteBundleFileExtension(bundleName), fileHash).Success?
    ensures var name := GetRemoteBundleFileName(nameStyle, bundleName, GetRemoteBundleFileExtension(bundleName), fileHash).value;
      GetRemoteBundleFileExtension(name) == GetRemoteBundleFileExtension(bundleName)
  {
    var ext := GetRemoteBundleFileExtension(bundleName);
    var name := GetRemoteBundleFileName(nameStyle, bundleName, ext, fileHash).value;
    var prefix := name[..|name| - |ext|];
    if nameStyle == HashName {
      assert name == fileHash + ext;
    } else {
      var stem :| name == stem + "_" + fileHash + ext && |stem| < |bundleName| && bundleName[..|stem|] == stem
        && bundleName[|stem|] == '.' && '.' !in bundleName[|stem| + 1..];
      assert name == (stem + "_" + fileHash) + ext;
    }
    assert name == prefix + ext;
    ExtensionAfterAnyPrefix(prefix, bundleName);
  }
}
