/**
 * The thumbnail naming rule of the newer service: the thumbnail of
 * `dir/name.ext` is `dir/.thumbnail.name.jpg`, and files whose names start
 * with `.thumbnail.` are never taken for collection images.
 */
module Thumbnails {
  import opened Domain

  const ThumbnailPrefix: string := ".thumbnail."
  const JpgSuffix: string := ".jpg"

  predicate NoDot(s: string) {
    forall j :: 0 <= j < |s| ==> s[j] != '.'
  }

  /** The index of the last '.' in s, if there is one. */
  function LastDot(s: string): (r: Option<nat>)
    ensures r.Some? ==> r.value < |s| && s[r.value] == '.' && forall j :: r.value < j < |s| ==> s[j] != '.'
    ensures r.None? ==> NoDot(s)
  {
    if s == [] then None
    else if s[|s| - 1] == '.' then Some(|s| - 1)
    else LastDot(s[..|s| - 1])
  }

  /**
   * Rust's `Path::file_stem` on a file name: the name without its last
   * extension. A name whose only dot is its first character, a name without
   * a dot, and ".." are their own stem.
   */
  function Stem(name: string): (r: string)
    ensures |r| <= |name| && r == name[..|r|]
    ensures name != "" ==> r != ""
    ensures NoDot(name) ==> r == name
  {
    if name == ".." then name
    else match LastDot(name)
      case None => name
      case Some(i) => if i == 0 then name else name[..i]
  }

  function ThumbnailName(name: string): string {
    ThumbnailPrefix + Stem(name) + JpgSuffix
  }

  /** `get_thumbnail_path`: same directory, file name ".thumbnail." + stem + ".jpg". */
  function ThumbnailPath(p: FilePath): (t: FilePath)
    requires p.fileName != "" && p.fileName != ".."
    ensures t.parent == p.parent
    ensures IsThumbnailName(t.fileName)
    ensures t.fileName == ThumbnailPrefix + Stem(p.fileName) + JpgSuffix
  {
    FilePath(p.parent, ThumbnailName(p.fileName))
  }

  /** The test of `scan_for_collections`: the file name starts with the prefix. */
  predicate IsThumbnailName(name: string)
    ensures IsThumbnailName(name) <==> |name| >= |ThumbnailPrefix| && name == ThumbnailPrefix + name[|ThumbnailPrefix|..]
  {
    |ThumbnailPrefix| <= |name| && name[..|ThumbnailPrefix|] == ThumbnailPrefix
  }

  /** Every name made of the prefix and anything after it is taken for a thumbnail. */
  lemma PrefixedIsThumbnailName(rest: string)
    ensures IsThumbnailName(ThumbnailPrefix + rest)
  {
    assert (ThumbnailPrefix + rest)[..|ThumbnailPrefix|] == ThumbnailPrefix;
  }

  /** Appending "." + ext, where ext has no dot, puts the last dot right after s. */
  lemma {:induction false} LastDotOfExtension(s: string, ext: string)
    requires NoDot(ext)
    ensures LastDot(s + "." + ext) == Some(|s|)
    decreases |ext|
  {
    var whole := s + "." + ext;
    if ext != [] {
      var shorter := ext[..|ext| - 1];
      assert whole[..|whole| - 1] == s + "." + shorter;
      LastDotOfExtension(s, shorter);
    }
  }

  /**
   * A name with an extension is its stem, a dot and the extension, and the
   * extension has no dot.
   */
  lemma StemSplits(name: string)
    requires name != ".." && LastDot(name).Some? && LastDot(name).value > 0
    ensures var i := LastDot(name).value;
      name == Stem(name) + "." + name[i + 1..] && NoDot(name[i + 1..])
  {
  }

  /**
   * The stem of "stem.ext" is "stem" whenever the stem is not empty: the
   * inverse of appending an extension.
   */
  lemma StemOfExtended(stem: string, ext: string)
    requires stem != [] && NoDot(ext) && stem + "." + ext != ".."
    ensures Stem(stem + "." + ext) == stem
  {
    LastDotOfExtension(stem, ext);
    assert (stem + "." + ext)[..|stem|] == stem;
  }

  /** A thumbnail's own stem is the prefix followed by the image's stem. */
  lemma ThumbnailStem(name: string)
    ensures Stem(ThumbnailName(name)) == ThumbnailPrefix + Stem(name)
  {
    assert ThumbnailName(name) == (ThumbnailPrefix + Stem(name)) + "." + "jpg";
    assert |ThumbnailName(name)| > 2;
    StemOfExtended(ThumbnailPrefix + Stem(name), "jpg");
  }

  /**
   * Two images share a thumbnail file exactly when they sit in the same
   * directory and have the same stem ("cat.png" and "cat.jpg" do).
   */
  lemma SameThumbnailIffSameStem(p: FilePath, q: FilePath)
    requires p.fileName != "" && p.fileName != ".."
    requires q.fileName != "" && q.fileName != ".."
    ensures ThumbnailPath(p) == ThumbnailPath(q) <==> p.parent == q.parent && Stem(p.fileName) == Stem(q.fileName)
  {
    var a, b := ThumbnailName(p.fileName), ThumbnailName(q.fileName);
    if a == b {
      var n := |ThumbnailPrefix|;
      assert |Stem(p.fileName)| == |Stem(q.fileName)|;
      assert Stem(p.fileName) == a[n..|a| - |JpgSuffix|];
      assert Stem(q.fileName) == b[n..|b| - |JpgSuffix|];
    }
  }
}
