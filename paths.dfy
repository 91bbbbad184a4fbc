/**
 * Path strings: Python's `os.path.join`, the decimal rendering of an id in an
 * f-string, the part of `os.path.relpath` the thumbnail task relies on, and the
 * artifact layout the background tasks write to.
 */
module PathLayout {

  // ---------------------------------------------------------------------------
  // os.path.join (POSIX)
  // ---------------------------------------------------------------------------

  /** One step of `posixpath.join`: an absolute component replaces the path,
      otherwise a separator is inserted unless the path is empty or already ends in one. */
  function JoinStep(path: string, b: string): string {
    if |b| > 0 && b[0] == '/' then b
    else if path == [] || path[|path| - 1] == '/' then path + b
    else path + "/" + b
  }

  /** `os.path.join(path, *parts)`: a left fold of JoinStep. */
  function Join(path: string, parts: seq<string>): string
    decreases |parts|
  {
    if parts == [] then path else Join(JoinStep(path, parts[0]), parts[1..])
  }

  /** An absolute component discards everything joined before it. */
  lemma {:induction false} JoinAbsolute(path: string, xs: seq<string>, a: string, ys: seq<string>)
    requires |a| > 0 && a[0] == '/'
    ensures Join(path, xs + [a] + ys) == Join(a, ys)
    decreases |xs|
  {
    if xs == [] {
      assert xs + [a] + ys == [a] + ys;
      assert ([a] + ys)[1..] == ys;
    } else {
      assert (xs + [a] + ys)[0] == xs[0];
      assert (xs + [a] + ys)[1..] == xs[1..] + [a] + ys;
      JoinAbsolute(JoinStep(path, xs[0]), xs[1..], a, ys);
    }
  }

  /** A component that neither starts nor ends with a separator and is not empty. */
  predicate Clean(c: string) {
    |c| > 0 && c[0] != '/' && c[|c| - 1] != '/'
  }

  /** The root as it reads in front of a joined relative component. */
  function DirPrefix(root: string): string {
    if root == [] || root[|root| - 1] == '/' then root else root + "/"
  }

  /** Components separated by single slashes. */
  function Slashed(parts: seq<string>): string
    decreases |parts|
  {
    if parts == [] then ""
    else if |parts| == 1 then parts[0]
    else parts[0] + "/" + Slashed(parts[1..])
  }

  /** Joining in two calls is joining once: `join(join(p, *xs), *ys) == join(p, *xs, *ys)`. */
  lemma {:induction false} JoinAppend(p: string, xs: seq<string>, ys: seq<string>)
    ensures Join(p, xs + ys) == Join(Join(p, xs), ys)
    decreases |xs|
  {
    if xs == [] {
      assert xs + ys == ys;
    } else {
      assert (xs + ys)[0] == xs[0];
      assert (xs + ys)[1..] == xs[1..] + ys;
      JoinAppend(JoinStep(p, xs[0]), xs[1..], ys);
    }
  }

  /** With clean components the join is the root, one separator, and the components slashed together. */
  lemma {:induction false} JoinClean(root: string, parts: seq<string>)
    requires parts != []
    requires forall k :: 0 <= k < |parts| ==> Clean(parts[k])
    ensures Join(root, parts) == DirPrefix(root) + Slashed(parts)
    decreases |parts|
  {
    var c := parts[0];
    assert Clean(c);
    var next := JoinStep(root, c);
    assert next == DirPrefix(root) + c;
    if |parts| > 1 {
      var rest := parts[1..];
      assert forall k :: 0 <= k < |rest| ==> Clean(rest[k]) by {
        forall k | 0 <= k < |rest| ensures Clean(rest[k]) { assert rest[k] == parts[k + 1]; }
      }
      JoinClean(next, rest);
      assert next[|next| - 1] == c[|c| - 1];
      assert DirPrefix(next) == next + "/";
    }
  }

  // ---------------------------------------------------------------------------
  // Decimal rendering of an id (`f'{video_id}'`) and its inverse (`int(s)`)
  // ---------------------------------------------------------------------------

  function Digit(d: nat): char
    requires d < 10
  {
    "0123456789"[d]
  }

  predicate IsDigit(c: char) {
    '0' <= c <= '9'
  }

  /** `str(n)` for a non-negative integer. */
  function NatStr(n: nat): (s: string)
    ensures |s| > 0
    ensures forall k :: 0 <= k < |s| ==> IsDigit(s[k])
    decreases n
  {
    if n < 10 then [Digit(n)] else NatStr(n / 10) + [Digit(n % 10)]
  }

  /** `int(s)` for a string of decimal digits. */
  function DecimalValue(s: string): nat
    requires forall k :: 0 <= k < |s| ==> IsDigit(s[k])
    decreases |s|
  {
    if s == [] then 0
    else
      var last := s[|s| - 1];
      assert IsDigit(last);
      DecimalValue(s[..|s| - 1]) * 10 + (last as int - '0' as int)
  }

  /** Parsing the rendered id gives the id back. */
  lemma {:induction false} DecimalValueOfNatStr(n: nat)
    ensures DecimalValue(NatStr(n)) == n
    decreases n
  {
    var s := NatStr(n);
    if n < 10 {
      assert s[..0] == [];
    } else {
      assert s[..|s| - 1] == NatStr(n / 10);
      DecimalValueOfNatStr(n / 10);
    }
  }

  /** Distinct ids render differently. */
  lemma NatStrInjective(a: nat, b: nat)
    requires NatStr(a) == NatStr(b)
    ensures a == b
  {
    DecimalValueOfNatStr(a);
    DecimalValueOfNatStr(b);
  }

  // ---------------------------------------------------------------------------
  // os.path.relpath, for a path that lies below the start directory
  // ---------------------------------------------------------------------------

  /** `os.path.relpath(path, start)` where `path` is `start` joined with further
      components: the part after the start directory. Both sides are made absolute
      against the same working directory first, so an empty start (the working
      directory itself) gives the joined components unchanged. */
  function RelPath(path: string, start: string): (r: string)
    requires DirPrefix(start) <= path
    ensures DirPrefix(start) + r == path
  {
    path[|DirPrefix(start)|..]
  }

  // ---------------------------------------------------------------------------
  // The layout the background tasks write
  // ---------------------------------------------------------------------------

  /** `f'video_{id}'`, the per-video directory name. */
  function VideoDirName(id: nat): string {
    "video_" + NatStr(id)
  }

  /** The value the transcode task stores in `hls_path`: `videos/hls/video_<id>`. */
  function HlsRoot(id: nat): string {
    "videos/hls/" + VideoDirName(id)
  }

  /** `os.path.join(MEDIA_ROOT, 'videos', 'hls', f'video_{id}')`: the media root
      followed by the stored `hls_path`. */
  function HlsOutputDir(root: string, id: nat): (r: string)
    ensures r == DirPrefix(root) + HlsRoot(id)
  {
    var v := VideoDirName(id);
    NatStrClean(id);
    JoinClean(root, ["videos", "hls", v]);
    SlashedThree("videos", "hls", v);
    HlsLiteral(v);
    Join(root, ["videos", "hls", v])
  }

  /** `os.path.join(output_dir, res['name'])`. */
  function RenditionDir(root: string, id: nat, name: string): string {
    Join(HlsOutputDir(root, id), [name])
  }

  /** `f'video_{id}_thumb.jpg'`. */
  function ThumbnailName(id: nat): string {
    "video_" + NatStr(id) + "_thumb.jpg"
  }

  /** `os.path.join(MEDIA_ROOT, 'videos', 'thumbnails')`. */
  function ThumbnailDir(root: string): string {
    Join(root, ["videos", "thumbnails"])
  }

  /** `os.path.join(thumbnail_dir, f'video_{id}_thumb.jpg')`: the media root
      followed by the relative name the task stores. */
  function ThumbnailPath(root: string, id: nat): (r: string)
    ensures r == DirPrefix(root) + ThumbnailRelPath(id)
  {
    var name := ThumbnailName(id);
    NatStrClean(id);
    JoinAppend(root, ["videos", "thumbnails"], [name]);
    assert ["videos", "thumbnails"] + [name] == ["videos", "thumbnails", name];
    JoinClean(root, ["videos", "thumbnails", name]);
    SlashedThree("videos", "thumbnails", name);
    ThumbnailsLiteral();
    Join(ThumbnailDir(root), [name])
  }

  /** The value the thumbnail task stores in `thumbnail_image`. */
  function ThumbnailRelPath(id: nat): string {
    "videos/thumbnails/" + ThumbnailName(id)
  }

  /** `p` is the directory `d` itself or lies inside it. */
  predicate Under(p: string, d: string) {
    p == d || d + "/" <= p
  }

  lemma NatStrClean(id: nat)
    ensures Clean(VideoDirName(id))
    ensures Clean(ThumbnailName(id))
    ensures forall k :: 0 <= k < |NatStr(id)| ==> NatStr(id)[k] != '/'
  {
    var s := NatStr(id);
    assert IsDigit(s[|s| - 1]);
    assert VideoDirName(id)[|VideoDirName(id)| - 1] == s[|s| - 1];
  }

  /** The output directory is the media root joined with the stored `hls_path`,
      and a rendition directory is the output directory plus one component. */
  lemma HlsOutputDirLayout(root: string, id: nat)
    ensures HlsOutputDir(root, id) == DirPrefix(root) + HlsRoot(id)
    ensures Join(root, [HlsRoot(id)]) == HlsOutputDir(root, id)
  {
    assert HlsRoot(id)[0] == 'v';
    JoinOne(root, HlsRoot(id));
  }

  lemma HlsLiteral(v: string)
    ensures "videos" + "/" + "hls" + "/" + v == "videos/hls/" + v
  {
    assert "videos" + "/" + "hls" + "/" == "videos/hls/";
  }

  /** A rendition directory is `<root>/videos/hls/video_<id>/<name>`, and a file
      joined onto it lands directly inside it. */
  lemma RenditionDirLayout(root: string, id: nat, name: string, file: string)
    requires Clean(name) && Clean(file)
    ensures RenditionDir(root, id, name) == DirPrefix(root) + HlsRoot(id) + "/" + name
    ensures Join(RenditionDir(root, id, name), [file]) == RenditionDir(root, id, name) + "/" + file
  {
    var out := HlsOutputDir(root, id);
    HlsRootClean(id);
    EndsWith(DirPrefix(root), HlsRoot(id));
    JoinAfter(out, name);
    EndsWith(out + "/", name);
    JoinAfter(out + "/" + name, file);
  }

  /** The stored `hls_path` is a clean relative path. */
  lemma HlsRootClean(id: nat)
    ensures Clean(HlsRoot(id))
  {
    NatStrClean(id);
    EndsWith("videos/hls/", VideoDirName(id));
  }

  lemma EndsWith(a: string, b: string)
    requires b != []
    ensures (a + b)[|a + b| - 1] == b[|b| - 1]
  {
  }

  /** Joining a clean component onto a path that does not end in a separator. */
  lemma JoinAfter(dir: string, c: string)
    requires dir != [] && dir[|dir| - 1] != '/' && Clean(c)
    ensures Join(dir, [c]) == dir + "/" + c
  {
    assert [c][1..] == [];
  }

  /** No file of one video's HLS tree lies in another video's HLS tree. */
  lemma HlsDirsDisjoint(root: string, a: nat, b: nat)
    requires a != b
    ensures !Under(HlsOutputDir(root, b), HlsOutputDir(root, a))
    ensures HlsOutputDir(root, a) != HlsOutputDir(root, b)
  {
    HlsOutputDirLayout(root, a);
    HlsOutputDirLayout(root, b);
    NatStrClean(a);
    NatStrClean(b);
    if NatStr(a) == NatStr(b) {
      NatStrInjective(a, b);
    }
    var pre := DirPrefix(root) + "videos/hls/" + "video_";
    Regroup(DirPrefix(root), "videos/hls/", "video_", NatStr(a));
    Regroup(DirPrefix(root), "videos/hls/", "video_", NatStr(b));
    SeparateDirs(pre, NatStr(a), NatStr(b));
  }

  /** Regrouping a concatenation of four strings. */
  lemma Regroup(p: string, q: string, r: string, s: string)
    ensures p + (q + (r + s)) == p + q + r + s
    ensures p + (q + r + s) == p + q + r + s
  {
  }

  /** Two different slash-free names under the same prefix name disjoint directories. */
  lemma SeparateDirs(pre: string, x: string, y: string)
    requires x != y
    requires forall k :: 0 <= k < |y| ==> y[k] != '/'
    ensures pre + x != pre + y
    ensures !(pre + x + "/" <= pre + y)
  {
    assert x == (pre + x)[|pre|..];
    assert y == (pre + y)[|pre|..];
    if |pre + x + "/"| <= |pre + y| {
      var i := |pre| + |x|;
      assert (pre + x + "/")[i] == '/';
      assert (pre + y)[i] == y[|x|];
    }
  }

  /** Distinct ids give distinct thumbnail files. */
  lemma ThumbnailPathsDistinct(root: string, a: nat, b: nat)
    requires a != b
    ensures ThumbnailPath(root, a) != ThumbnailPath(root, b)
    ensures ThumbnailRelPath(a) != ThumbnailRelPath(b)
  {
    ThumbnailLayout(root, a);
    ThumbnailLayout(root, b);
    var sa, sb := NatStr(a), NatStr(b);
    var dir := "videos/thumbnails/";
    var post := "_thumb.jpg";
    if ThumbnailRelPath(a) == ThumbnailRelPath(b) {
      Regroup(dir, "video_", sa, post);
      Regroup(dir, "video_", sb, post);
      MiddleCancel(dir + "video_", sa, sb, post);
      NatStrInjective(a, b);
    }
  }

  lemma MiddleCancel(pre: string, x: string, y: string, post: string)
    requires pre + x + post == pre + y + post
    ensures x == y
  {
    assert |x| == |y|;
    assert x == (pre + x + post)[|pre|..|pre| + |x|];
    assert y == (pre + y + post)[|pre|..|pre| + |y|];
  }

  lemma SlashedThree(a: string, b: string, c: string)
    ensures Slashed([a, b, c]) == a + "/" + b + "/" + c
  {
    assert [a, b, c][1..] == [b, c];
    assert [b, c][1..] == [c];
    assert Slashed([c]) == c;
    assert Slashed([b, c]) == b + "/" + c;
  }

  /** The thumbnail file is the media root joined with the stored relative path,
      and `relpath` of the file against the media root gives that relative path back. */
  lemma ThumbnailLayout(root: string, id: nat)
    ensures ThumbnailPath(root, id) == DirPrefix(root) + ThumbnailRelPath(id)
    ensures Join(root, [ThumbnailRelPath(id)]) == ThumbnailPath(root, id)
    ensures DirPrefix(root) <= ThumbnailPath(root, id)
    ensures RelPath(ThumbnailPath(root, id), root) == ThumbnailRelPath(id)
  {
    var rel := ThumbnailRelPath(id);
    JoinOne(root, rel);
    var full := DirPrefix(root) + rel;
    assert full[|DirPrefix(root)|..] == rel;
  }

  lemma ThumbnailsLiteral()
    ensures "videos" + "/" + "thumbnails" + "/" == "videos/thumbnails/"
  {
  }

  /** Joining one component that does not start with a separator. */
  lemma JoinOne(root: string, c: string)
    requires |c| > 0 && c[0] != '/'
    ensures Join(root, [c]) == DirPrefix(root) + c
  {
    assert [c][1..] == [];
  }
}
