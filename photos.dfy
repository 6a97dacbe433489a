/** Photo records and the pure string work that derives them from resource paths,
    plus the lookup of a photo by its resource path. */
module Photos {

  /** A normalised gallery entry: the resource path, a human label and the file name. */
  datatype Photo = Photo(src: string, tag: string, filename: string)

  /** The text after the last '/' of a path (the whole path when it has no '/'),
      which is what splitting on "/" and taking the last piece yields. */
  function FileName(path: string): (r: string)
    ensures '/' !in r
    ensures |r| <= |path| && r == path[|path| - |r|..]
    ensures |r| < |path| ==> path[|path| - |r| - 1] == '/'
  {
    if path == [] then []
    else if path[|path| - 1] == '/' then []
    else
      var init := path[..|path| - 1];
      var r := FileName(init);
      assert init[|init| - |r|..] + [path[|path| - 1]] == path[|path| - |r| - 1..];
      r + [path[|path| - 1]]
  }

  /** A path without a '/' is its own file name. */
  lemma FileNameWithoutSlash(path: string)
    requires '/' !in path
    ensures FileName(path) == path
  {
  }

  /** Index of the last '.' or '/' of s, or -1 when s has neither. */
  function LastDotOrSlash(s: string): (i: int)
    ensures -1 <= i < |s|
    ensures i >= 0 ==> s[i] == '.' || s[i] == '/'
    ensures forall k :: i < k < |s| ==> s[k] != '.' && s[k] != '/'
  {
    if s == [] then -1
    else if s[|s| - 1] == '.' || s[|s| - 1] == '/' then |s| - 1
    else LastDotOrSlash(s[..|s| - 1])
  }

  /** The regular expression \.[^/.]+$ matches s at position i: a '.' followed by
      one or more characters, none of them '.' or '/', up to the end of s. */
  ghost predicate ExtensionAt(s: string, i: int)
  {
    0 <= i < |s| - 1 && s[i] == '.' &&
    forall k :: i < k < |s| ==> s[k] != '.' && s[k] != '/'
  }

  /** Removes one trailing extension, as replacing \.[^/.]+$ by "" does:
      the text before the match when there is one, s itself otherwise. */
  function StripExtension(s: string): (r: string)
    ensures forall i :: ExtensionAt(s, i) ==> r == s[..i]
    ensures (forall i :: !ExtensionAt(s, i)) ==> r == s
    ensures |r| <= |s| && r == s[..|r|]
  {
    var i := LastDotOrSlash(s);
    if 0 <= i < |s| - 1 && s[i] == '.' then
      assert ExtensionAt(s, i);
      s[..i]
    else s
  }

  predicate IsSeparator(c: char)
  {
    c == '-' || c == '_'
  }

  /** Replaces every '-' and every '_' by a space, as replacing /[-_]/g by " " does. */
  function SpaceSeparators(s: string): (r: string)
    ensures |r| == |s|
    ensures forall k :: 0 <= k < |s| && IsSeparator(s[k]) ==> r[k] == ' '
    ensures forall k :: 0 <= k < |s| && !IsSeparator(s[k]) ==> r[k] == s[k]
    ensures '-' !in r && '_' !in r
  {
    if s == [] then []
    else
      var rest := SpaceSeparators(s[1..]);
      var head := if IsSeparator(s[0]) then ' ' else s[0];
      assert forall k :: 1 <= k < |s| ==> ([head] + rest)[k] == rest[k - 1];
      [head] + rest
  }

  /** The label shown for a photo: its file name without extension, separators
      as spaces. It is as long as the name up to the extension it drops, and
      agrees with the file name character by character except that separators
      become spaces. */
  function Tag(filename: string): (r: string)
    ensures |r| == |StripExtension(filename)| <= |filename|
    ensures forall k :: 0 <= k < |r| && IsSeparator(filename[k]) ==> r[k] == ' '
    ensures forall k :: 0 <= k < |r| && !IsSeparator(filename[k]) ==> r[k] == filename[k]
    ensures '-' !in r && '_' !in r
  {
    SpaceSeparators(StripExtension(filename))
  }

  /** The record built from one descriptor's path: its src is the path, its file
      name the path's last '/'-segment, and its tag has neither '-' nor '_'. */
  function ToPhoto(path: string): (r: Photo)
    ensures r.src == path
    ensures '/' !in r.filename && |r.filename| <= |path| && r.filename == path[|path| - |r.filename|..]
    ensures |r.filename| < |path| ==> path[|path| - |r.filename| - 1] == '/'
    ensures r.tag == Tag(r.filename)
    ensures '-' !in r.tag && '_' !in r.tag
  {
    var filename := FileName(path);
    Photo(path, Tag(filename), filename)
  }

  /** The records built from all descriptors (`map`): one per descriptor, in order. */
  function Normalize(paths: seq<string>): (r: seq<Photo>)
    ensures |r| == |paths|
    ensures forall i :: 0 <= i < |paths| ==> r[i].src == paths[i] && r[i] == ToPhoto(paths[i])
  {
    seq(|paths|, i requires 0 <= i < |paths| => ToPhoto(paths[i]))
  }

  /** Loading keeps length and order; each record's src is its descriptor's path,
      its file name is the path's last '/'-segment and its tag has no '-' or '_'. */
  lemma NormalizedRecords(paths: seq<string>, i: int)
    requires 0 <= i < |paths|
    ensures |Normalize(paths)| == |paths|
    ensures Normalize(paths)[i].src == paths[i]
    ensures var f := Normalize(paths)[i].filename;
      '/' !in f && f == paths[i][|paths[i]| - |f|..] &&
      (|f| < |paths[i]| ==> paths[i][|paths[i]| - |f| - 1] == '/')
    ensures '-' !in Normalize(paths)[i].tag && '_' !in Normalize(paths)[i].tag
  {
    var f := FileName(paths[i]);
    assert Normalize(paths)[i] == Photo(paths[i], SpaceSeparators(StripExtension(f)), f);
  }

  /** Position of the first photo whose src is `src`, or -1 when there is none
      (Array.prototype.findIndex on an equality test). */
  function IndexOfSrc(photos: seq<Photo>, src: string): (r: int)
    ensures -1 <= r < |photos|
    ensures r >= 0 ==> photos[r].src == src
    ensures r >= 0 ==> forall j :: 0 <= j < r ==> photos[j].src != src
    ensures r == -1 ==> forall j :: 0 <= j < |photos| ==> photos[j].src != src
  {
    if photos == [] then -1
    else if photos[0].src == src then 0
    else
      var r := IndexOfSrc(photos[1..], src);
      if r == -1 then -1 else r + 1
  }

  /** No two photos share a resource path. */
  ghost predicate UniqueSources(photos: seq<Photo>)
  {
    forall i, j :: 0 <= i < j < |photos| ==> photos[i].src != photos[j].src
  }

  /** With unique paths, looking up a photo's own src finds that photo. */
  lemma IndexOfOwnSrc(photos: seq<Photo>, i: int)
    requires UniqueSources(photos) && 0 <= i < |photos|
    ensures IndexOfSrc(photos, photos[i].src) == i
  {
  }

  /** Without uniqueness the lookup may land before the photo: looking up a
      photo whose path also occurs earlier finds a position no later than the
      earlier occurrence. */
  lemma DuplicateSourceFoundEarlier(photos: seq<Photo>, i: int, j: int)
    requires 0 <= i < j < |photos| && photos[i].src == photos[j].src
    ensures 0 <= IndexOfSrc(photos, photos[j].src) <= i
  {
  }

  /** For example, with paths [a, b, a] the third photo is found at position 0. */
  lemma DuplicateSourceExample(a: Photo, b: Photo)
    requires a.src != b.src
    ensures IndexOfSrc([a, b, a], a.src) == 0
  {
  }
}
