/**
 * How the connector names a file in the archive: the HSM path derived from a
 * file identifier, the external path under the mountpoint, and the locator
 * URI handed back by a flush.
 */
module HsmPath {

  /** Storage-class metadata of a file; the path mapping is given it but does not look at it. */
  type StorageInfo = map<string, string>

  /** `getHsmPath(storageInfo, pnfsId)`: the archive-relative path of a file. */
  function GetHsmPath(info: StorageInfo, pnfsId: string): (p: string)
    ensures |p| == |pnfsId| + 1 && p[0] == '/' && p[1..] == pnfsId
  {
    "/" + pnfsId
  }

  /** The path mapping ignores the storage info and tells file identifiers apart. */
  lemma HsmPathIdentifies(info1: StorageInfo, id1: string, info2: StorageInfo, id2: string)
    ensures GetHsmPath(info1, id1) == GetHsmPath(info2, id2) <==> id1 == id2
  {
    if GetHsmPath(info1, id1) == GetHsmPath(info2, id2) {
      assert id1 == GetHsmPath(info1, id1)[1..];
    }
  }

  /** The mountpoint without the separators that end it. */
  function TrimTrailingSlashes(s: string): (r: string)
    ensures |r| <= |s| && r == s[..|r|]
    ensures r == [] || r[|r| - 1] != '/'
    ensures forall i :: |r| <= i < |s| ==> s[i] == '/'
  {
    if s != [] && s[|s| - 1] == '/' then TrimTrailingSlashes(s[..|s| - 1]) else s
  }

  /** No separator directly follows another. */
  predicate NoDoubleSlash(s: string) {
    forall i :: 0 < i < |s| ==> s[i - 1] != '/' || s[i] != '/'
  }

  /** `s` with every run of separators shrunk to a single one. */
  function CollapseSlashes(s: string): (r: string)
    ensures NoDoubleSlash(r)
    ensures |r| <= |s| && (r == [] <==> s == [])
    ensures r != [] ==> r[0] == s[0] && r[|r| - 1] == s[|s| - 1]
    ensures NoDoubleSlash(s) ==> r == s
  {
    if |s| < 2 then s
    else
      var init := s[..|s| - 1];
      if s[|s| - 2] == '/' && s[|s| - 1] == '/' then CollapseSlashes(init)
      else CollapseSlashes(init) + [s[|s| - 1]]
  }

  /**
   * The normal form of a Unix path string: runs of separators collapsed and
   * trailing separators dropped, except that a path made of separators only
   * becomes the root `/`.
   */
  function Normalize(s: string): (r: string)
    ensures NoDoubleSlash(r)
    ensures r == [] <==> s == []
    ensures r != [] && r[|r| - 1] == '/' ==> r == "/"
    ensures NoDoubleSlash(s) && s != [] && s[|s| - 1] != '/' ==> r == s
  {
    if s == [] then []
    else
      var t := TrimTrailingSlashes(s);
      if t == [] then "/" else CollapseSlashes(t)
  }

  /**
   * `Paths.get(mountpoint, hsmPath)`: the two strings joined by a separator
   * (an empty one is skipped), then normalised.
   */
  function Join(mountpoint: string, hsmPath: string): (p: string)
    ensures NoDoubleSlash(p)
    ensures p == [] <==> mountpoint == [] && hsmPath == []
    ensures p != [] && p[|p| - 1] == '/' ==> p == "/"
  {
    Normalize(if mountpoint == [] then hsmPath
              else if hsmPath == [] then mountpoint
              else mountpoint + "/" + hsmPath)
  }

  /** The directory the archive files lie in: the normalised mountpoint, with the root written as the empty prefix. */
  function Directory(mountpoint: string): (d: string)
    ensures NoDoubleSlash(d) && (d == [] || d[|d| - 1] != '/')
    ensures d == [] <==> TrimTrailingSlashes(mountpoint) == []
  {
    CollapseSlashes(TrimTrailingSlashes(mountpoint))
  }

  /** A string that does not end in a separator has none to trim. */
  lemma TrimNothing(s: string)
    requires s == [] || s[|s| - 1] != '/'
    ensures TrimTrailingSlashes(s) == s
  {
  }

  /** Characters other than separators are appended unchanged by the collapse. */
  lemma {:induction false} CollapseAppend(x: string, name: string)
    requires '/' !in name
    ensures CollapseSlashes(x + name) == CollapseSlashes(x) + name
  {
    if name != [] {
      var init := name[..|name| - 1];
      var c := name[|name| - 1];
      assert c != '/' && name == init + [c];
      CollapseAppend(x, init);
      assert x + name == (x + init) + [c];
      assert (x + name)[..|x + name| - 1] == x + init;
    } else {
      assert x + name == x;
    }
  }

  /** A separator after a separator disappears in the collapse. */
  lemma CollapseRepeatedSeparator(x: string)
    requires x != [] && x[|x| - 1] == '/'
    ensures CollapseSlashes(x + "/") == CollapseSlashes(x)
  {
    assert (x + "/")[..|x|] == x;
  }

  /** A separator after any other character is kept by the collapse. */
  lemma CollapseFirstSeparator(x: string)
    requires x != [] && x[|x| - 1] != '/'
    ensures CollapseSlashes(x + "/") == CollapseSlashes(x) + "/"
  {
    assert (x + "/")[..|x|] == x;
  }

  /** One separator after a path collapses onto the path's own trailing separators. */
  lemma {:induction false} CollapseSeparatorEnd(m: string)
    ensures CollapseSlashes(m + "/") == CollapseSlashes(TrimTrailingSlashes(m)) + "/"
  {
    if m == [] {
      assert m + "/" == "/";
    } else if m[|m| - 1] == '/' {
      var init := m[..|m| - 1];
      assert init + "/" == m;
      assert TrimTrailingSlashes(m) == TrimTrailingSlashes(init);
      CollapseSeparatorEnd(init);
      CollapseRepeatedSeparator(m);
    } else {
      CollapseFirstSeparator(m);
      TrimNothing(m);
    }
  }

  /**
   * A file identifier that is a plain name lands directly in the mountpoint's
   * directory, whatever separators the mountpoint ends with.
   */
  lemma JoinHsmPath(mountpoint: string, name: string)
    requires name != [] && '/' !in name
    ensures Join(mountpoint, "/" + name) == Directory(mountpoint) + "/" + name
  {
    var h := "/" + name;
    if mountpoint == [] {
      TrimNothing(h);
      CollapseAppend("/", name);
    } else {
      var joined := mountpoint + "/" + h;
      assert joined == (mountpoint + "//") + name;
      TrimNothing(joined);
      CollapseAppend(mountpoint + "//", name);
      assert (mountpoint + "//")[..|mountpoint| + 1] == mountpoint + "/";
      CollapseSeparatorEnd(mountpoint);
    }
  }

  /** A mountpoint already in normal form is used as it is. */
  lemma JoinVerbatim(mountpoint: string, name: string)
    requires NoDoubleSlash(mountpoint) && (mountpoint == [] || mountpoint[|mountpoint| - 1] != '/')
    requires name != [] && '/' !in name
    ensures Join(mountpoint, "/" + name) == mountpoint + "/" + name
  {
    JoinHsmPath(mountpoint, name);
    TrimNothing(mountpoint);
  }

  /** A separator after a non-empty path does not change its normal form. */
  lemma NormalizeIgnoresTrailingSeparator(x: string)
    requires x != []
    ensures Normalize(x + "/") == Normalize(x)
  {
    assert (x + "/")[..|x|] == x;
    assert TrimTrailingSlashes(x + "/") == TrimTrailingSlashes(x);
  }

  /** A separator at the end of the HSM path names the same external file as the path without it. */
  lemma JoinIgnoresTrailingSeparator(mountpoint: string, hsmPath: string)
    requires hsmPath != []
    ensures Join(mountpoint, hsmPath + "/") == Join(mountpoint, hsmPath)
  {
    var joined := if mountpoint == [] then hsmPath else mountpoint + "/" + hsmPath;
    assert (if mountpoint == [] then hsmPath + "/" else mountpoint + "/" + (hsmPath + "/")) == joined + "/";
    NormalizeIgnoresTrailingSeparator(joined);
  }

  /** The external file of a file identifier, as flush and stage compute it. */
  function ArchivePath(mountpoint: string, info: StorageInfo, pnfsId: string): (p: string)
    ensures NoDoubleSlash(p) && p != []
    ensures pnfsId != [] && '/' !in pnfsId ==> p == Directory(mountpoint) + "/" + pnfsId
  {
    if pnfsId != [] && '/' !in pnfsId then
      JoinHsmPath(mountpoint, pnfsId);
      Join(mountpoint, GetHsmPath(info, pnfsId))
    else
      Join(mountpoint, GetHsmPath(info, pnfsId))
  }

  /** Under a mountpoint in normal form, a plain identifier's external file is the mountpoint, a separator and the identifier. */
  lemma ArchivePathVerbatim(mountpoint: string, info: StorageInfo, pnfsId: string)
    requires NoDoubleSlash(mountpoint) && (mountpoint == [] || mountpoint[|mountpoint| - 1] != '/')
    requires pnfsId != [] && '/' !in pnfsId
    ensures ArchivePath(mountpoint, info, pnfsId) == mountpoint + "/" + pnfsId
  {
    JoinVerbatim(mountpoint, pnfsId);
  }

  /**
   * Two files whose identifiers are plain names share an external file
   * exactly when the identifiers are equal.
   */
  lemma ArchivePathsDistinct(mountpoint: string, info1: StorageInfo, id1: string, info2: StorageInfo, id2: string)
    requires id1 != [] && '/' !in id1
    requires id2 != [] && '/' !in id2
    ensures ArchivePath(mountpoint, info1, id1) == ArchivePath(mountpoint, info2, id2) <==> id1 == id2
  {
    var d := Directory(mountpoint);
    if ArchivePath(mountpoint, info1, id1) == ArchivePath(mountpoint, info2, id2) {
      assert id1 == (d + "/" + id1)[|d| + 1..];
      assert id2 == (d + "/" + id2)[|d| + 1..];
    }
  }

  /** `new URI(type, name, hsmPath, null, null)`: scheme, authority and path of a locator. */
  datatype Uri = Uri(scheme: string, authority: string, path: string)
}
