/**
 * The Flask server of the image viewer (app.py): the `ImageViewer` object
 * that lists the bucket, filters image names, builds image URLs, caches the
 * list and cuts it into pages; and the two authentication decisions.
 *
 * Object Storage, HTTP, the local list file, environment variables and
 * thumbnails are not computed here: they are inputs (`Backends`, the region
 * variable, `thumbnailOf`).
 */
module Server {
  import opened Wrappers
  import opened Text
  import Url
  import opened Api

  /** Images per page (app.py:23). */
  const IMAGES_PER_PAGE := 20

  /** The extensions, lower-cased, that make a name an image (app.py:31). */
  const IMAGE_EXTENSIONS: set<string> := {".jpg", ".jpeg", ".png", ".gif", ".bmp", ".webp", ".tiff", ".tif"}

  /** The region used when OCI_REGION is unset (app.py:255). */
  const DEFAULT_REGION := "us-ashburn-1"

  // ---------------------------------------------------------------------------
  // Image filter: `_is_image_file`
  // ---------------------------------------------------------------------------

  /**
   * `os.path.splitext(p)[1]` on POSIX: from the last `.` on, provided that dot
   * comes after the last `/` and is not one of the leading dots of the final
   * component; otherwise "".
   */
  function Extension(p: string): string {
    var sep := RFind(p, '/');
    var dot := RFind(p, '.');
    if dot > sep && exists k :: sep < k < dot && p[k] != '.' then p[dot..] else ""
  }

  /** `_is_image_file`: a non-empty name whose lower-cased extension is listed. */
  predicate IsImageFile(filename: string) {
    filename != "" && Extension(LowerAscii(filename)) in IMAGE_EXTENSIONS
  }

  /** The last path component of `stem` has a character other than `.`. */
  predicate HasBaseName(stem: string) {
    exists k :: RFind(stem, '/') < k < |stem| && stem[k] != '.'
  }

  /** `f` is a stem with a base name followed by a listed extension in any letter case. */
  predicate ImageSplit(f: string, i: int) {
    0 <= i <= |f| && LowerAscii(f[i..]) in IMAGE_EXTENSIONS && HasBaseName(f[..i])
  }

  lemma ExtensionsShape(e: string)
    requires e in IMAGE_EXTENSIONS
    ensures |e| >= 2 && e[0] == '.'
    ensures forall k :: 1 <= k < |e| ==> e[k] != '.' && e[k] != '/'
  {
    assert e == ".jpg" || e == ".jpeg" || e == ".png" || e == ".gif"
        || e == ".bmp" || e == ".webp" || e == ".tiff" || e == ".tif";
  }

  lemma LowerKeepsMarks(f: string)
    ensures forall k :: 0 <= k < |f| ==> (LowerAscii(f)[k] == '.' <==> f[k] == '.')
    ensures forall k :: 0 <= k < |f| ==> (LowerAscii(f)[k] == '/' <==> f[k] == '/')
  {
  }

  /** A name the filter accepts splits into a stem with a base name and a listed extension. */
  lemma ImageFileSplits(f: string)
    requires IsImageFile(f)
    ensures ImageSplit(f, RFind(LowerAscii(f), '.'))
  {
    var low := LowerAscii(f);
    LowerKeepsMarks(f);
    var sep := RFind(low, '/');
    var dot := RFind(low, '.');
    assert dot > sep;
    assert LowerAscii(f[dot..]) == low[dot..];
    assert forall k :: sep < k < dot ==> f[..dot][k] == f[k];
    assert forall k :: sep < k < |f[..dot]| ==> f[..dot][k] != '/';
    RFindUnique(f[..dot], '/', sep);
  }

  /** Lower-casing moves no `/`. */
  lemma LowerKeepsLastSlash(x: string)
    ensures RFind(LowerAscii(x), '/') == RFind(x, '/')
  {
    LowerKeepsMarks(x);
    RFindUnique(LowerAscii(x), '/', RFind(x, '/'));
  }

  /** A last occurrence that lies in a prefix is the prefix's last occurrence. */
  lemma RFindInPrefix(s: string, c: char, i: int)
    requires 0 <= i <= |s|
    requires forall k :: i <= k < |s| ==> s[k] != c
    ensures RFind(s, c) == RFind(s[..i], c)
  {
    RFindUnique(s, c, RFind(s[..i], c));
  }

  /** The lower-cased extension of a split name holds no `.` or `/` after its leading dot. */
  lemma SplitTail(f: string, i: int)
    requires ImageSplit(f, i)
    ensures LowerAscii(f)[i] == '.'
    ensures forall k :: i < k < |f| ==> LowerAscii(f)[k] != '.' && LowerAscii(f)[k] != '/'
  {
    var e := LowerAscii(f[i..]);
    ExtensionsShape(e);
    assert forall k :: i <= k < |f| ==> LowerAscii(f)[k] == e[k - i];
  }

  /** Where the last `.` and the last `/` of a lower-cased stem-plus-extension are. */
  lemma SplitMarks(f: string, i: int)
    requires ImageSplit(f, i)
    ensures RFind(LowerAscii(f), '.') == i
    ensures RFind(LowerAscii(f), '/') == RFind(f[..i], '/')
  {
    var low := LowerAscii(f);
    SplitTail(f, i);
    RFindUnique(low, '.', i);
    RFindInPrefix(low, '/', i);
    assert low[..i] == LowerAscii(f[..i]);
    LowerKeepsLastSlash(f[..i]);
  }

  /** A stem with a base name followed by a listed extension, in any case, passes the filter. */
  lemma SplitIsImageFile(f: string, i: int)
    requires ImageSplit(f, i)
    ensures IsImageFile(f)
  {
    var low := LowerAscii(f);
    SplitMarks(f, i);
    LowerKeepsMarks(f);
    var k :| RFind(f[..i], '/') < k < i && f[..i][k] != '.';
    assert low[k] != '.';
    assert low[i..] == LowerAscii(f[i..]);
  }

  /**
   * A name is an image file exactly when it splits into a stem whose last
   * component has a non-dot character and one of the eight extensions written
   * in any letter case.
   */
  lemma ImageFileExactly(f: string)
    ensures IsImageFile(f) <==> exists i :: ImageSplit(f, i)
  {
    if IsImageFile(f) {
      ImageFileSplits(f);
    }
    if exists i :: ImageSplit(f, i) {
      var i :| ImageSplit(f, i);
      SplitIsImageFile(f, i);
    }
  }

  lemma LowerOfUpper(f: string)
    ensures LowerAscii(UpperAscii(f)) == LowerAscii(f)
  {
    assert forall k :: 0 <= k < |f| ==> LowerAscii(UpperAscii(f))[k] == LowerAscii(f)[k];
  }

  /** The test ignores letter case: upper- or lower-casing a name does not change it. */
  lemma ImageFileIgnoresCase(f: string)
    ensures IsImageFile(UpperAscii(f)) == IsImageFile(f)
    ensures IsImageFile(LowerAscii(f)) == IsImageFile(f)
  {
    LowerOfUpper(f);
    assert LowerAscii(LowerAscii(f)) == LowerAscii(f);
  }

  // ---------------------------------------------------------------------------
  // The list of names and where it comes from: `get_image_list` and its helpers
  // ---------------------------------------------------------------------------

  /** The generated sample list `image_001.jpg` … `image_500.jpg` (app.py:141, app.py:229). */
  function SampleImageList(): (r: seq<string>)
    ensures |r| == 500
    ensures forall k :: 0 <= k < 500 ==> r[k] == "image_" + ZeroPad3(k + 1) + ".jpg"
  {
    seq(500, k requires 0 <= k < 500 => "image_" + ZeroPad3(k + 1) + ".jpg")
  }

  /** `image_<digits>.jpg` passes the image filter. */
  lemma SampleNameIsImageFile(n: nat)
    ensures IsImageFile("image_" + ZeroPad3(n) + ".jpg")
  {
    var digits := ZeroPad3(n);
    var stem := "image_" + digits;
    var name := stem + ".jpg";
    assert forall j :: 0 <= j < |stem| ==> stem[j] != '/' by {
      forall j | 0 <= j < |stem| ensures stem[j] != '/' {
        if j >= 6 {
          assert stem[j] == digits[j - 6];
        }
      }
    }
    RFindUnique(stem, '/', -1);
    assert stem[0] != '.';
    assert name[..|stem|] == stem;
    assert name[|stem|..] == ".jpg";
    assert LowerAscii(".jpg") == ".jpg";
    assert ImageSplit(name, |stem|);
    SplitIsImageFile(name, |stem|);
  }

  /** Every sample name passes the image filter. */
  lemma SampleImagesAreImageFiles()
    ensures forall name <- SampleImageList() :: IsImageFile(name)
  {
    forall k | 0 <= k < 500 ensures IsImageFile(SampleImageList()[k]) {
      SampleNameIsImageFile(k + 1);
    }
  }

  /** Python `<=` on strings: lexicographic by code point. */
  predicate LexLeq(a: string, b: string)
    decreases |a|
  {
    |a| == 0 || (|b| > 0 && (a[0] < b[0] || (a[0] == b[0] && LexLeq(a[1..], b[1..]))))
  }

  lemma {:induction false} LexLeqTotal(a: string, b: string)
    ensures LexLeq(a, b) || LexLeq(b, a)
    decreases |a|
  {
    if |a| > 0 && |b| > 0 && a[0] == b[0] {
      LexLeqTotal(a[1..], b[1..]);
    }
  }

  predicate Sorted(s: seq<string>) {
    forall i :: 0 < i < |s| ==> LexLeq(s[i - 1], s[i])
  }

  lemma SortedTail(s: seq<string>)
    requires Sorted(s) && |s| > 0
    ensures Sorted(s[1..])
  {
    assert forall i :: 0 < i < |s| - 1 ==> s[1..][i - 1] == s[i] && s[1..][i] == s[i + 1];
  }

  lemma SortedCons(x: string, s: seq<string>)
    requires Sorted(s) && (|s| > 0 ==> LexLeq(x, s[0]))
    ensures Sorted([x] + s)
  {
    var r := [x] + s;
    assert forall i :: 0 <= i < |s| ==> r[i + 1] == s[i];
  }

  /** Inserts `x` before the first element it does not follow. */
  function Insert(x: string, s: seq<string>): (r: seq<string>)
    ensures |r| == |s| + 1
    ensures multiset(r) == multiset(s) + multiset{x}
    ensures |s| > 0 ==> r[0] == x || r[0] == s[0]
    ensures Sorted(s) ==> Sorted(r)
  {
    if |s| == 0 then [x]
    else if LexLeq(x, s[0]) then
      assert Sorted(s) ==> Sorted([x] + s) by {
        if Sorted(s) {
          SortedCons(x, s);
        }
      }
      [x] + s
    else
      var rest := Insert(x, s[1..]);
      assert s == [s[0]] + s[1..];
      assert Sorted(s) ==> Sorted([s[0]] + rest) by {
        if Sorted(s) {
          SortedTail(s);
          LexLeqTotal(x, s[0]);
          assert rest[0] == x || rest[0] == s[1];
          SortedCons(s[0], rest);
        }
      }
      [s[0]] + rest
  }

  /** `list.sort()` on names: an ordered permutation. */
  function SortNames(s: seq<string>): (r: seq<string>)
    ensures |r| == |s|
    ensures multiset(r) == multiset(s)
    ensures Sorted(r)
  {
    if |s| == 0 then []
    else
      assert s == [s[0]] + s[1..];
      Insert(s[0], SortNames(s[1..]))
  }

  /** `r` is `s` with some elements left out, the rest in their order. */
  predicate IsSubsequence(r: seq<string>, s: seq<string>)
    decreases |s|
  {
    |r| == 0 || (|s| > 0 && ((r[0] == s[0] && IsSubsequence(r[1..], s[1..])) || IsSubsequence(r, s[1..])))
  }

  lemma SubsequenceCons(r: seq<string>, s: seq<string>)
    requires |s| > 0 && IsSubsequence(r, s[1..])
    ensures IsSubsequence(r, s)
    ensures IsSubsequence([s[0]] + r, s)
  {
    assert ([s[0]] + r)[1..] == r;
  }

  /** The names of the listing that pass the image filter, in listing order, each as often as listed. */
  function ImageFilesOf(objects: seq<string>): (r: seq<string>)
    ensures IsSubsequence(r, objects)
    ensures forall x :: multiset(r)[x] == if IsImageFile(x) then multiset(objects)[x] else 0
    ensures forall x :: x in r <==> x in objects && IsImageFile(x)
  {
    if |objects| == 0 then []
    else
      var rest := ImageFilesOf(objects[1..]);
      SubsequenceCons(rest, objects);
      assert objects == [objects[0]] + objects[1..];
      assert multiset(objects) == multiset{objects[0]} + multiset(objects[1..]);
      if IsImageFile(objects[0]) then [objects[0]] + rest else rest
  }

  /** The list the SDK path caches: the image names of the listing, sorted (app.py:159-167). */
  function SdkImageList(listing: seq<string>): (r: seq<string>)
    ensures Sorted(r)
    ensures multiset(r) == multiset(ImageFilesOf(listing))
    ensures forall x :: x in r <==> x in listing && IsImageFile(x)
  {
    var images := ImageFilesOf(listing);
    var r := SortNames(images);
    assert forall x :: x in r <==> x in multiset(r);
    assert forall x :: x in images <==> x in multiset(images);
    r
  }

  /** What reading `image_list.txt` gives: no file, an error other than a missing file, or its stripped non-empty lines. */
  datatype LocalFile = Missing | Unreadable | Lines(lines: seq<string>)

  /** The outcomes of the outside calls `get_image_list` makes. */
  datatype Backends = Backends(
    sdkClient: bool,                   // `_get_oci_client()` produced a client
    sdkListing: Option<seq<string>>,   // the object names `list_objects` returned; None when it raised
    manifest: Option<seq<string>>,     // `manifest.get('images', [])` of a 200 answer; None for another status or an error
    localFile: LocalFile,
    imageListEnv: Option<string>)      // IMAGE_LIST

  /**
   * `_get_fallback_image_list` (app.py:204-231). A read error other than a
   * missing file escapes every handler up to `get_image_list`, whose own
   * handler installs the sample list (app.py:138-142).
   */
  function FallbackImageList(b: Backends): seq<string> {
    match b.localFile
    case Lines(lines) => lines
    case Unreadable => SampleImageList()
    case Missing =>
      if b.imageListEnv.Some? && b.imageListEnv.value != "" then Split(b.imageListEnv.value, ',')
      else SampleImageList()
  }

  /**
   * The fetch behind `get_image_list` (app.py:131-231): Some(list) is returned
   * and cached; None stands for the `[]` returned, without caching, when there
   * is no PAR URL to fall back on (app.py:177-179).
   */
  function FetchImageList(parUrl: string, namespace: string, bucketName: string, b: Backends): Option<seq<string>> {
    if b.sdkClient && namespace != "" && bucketName != "" && b.sdkListing.Some? then
      Some(SdkImageList(b.sdkListing.value))
    else if parUrl == "" then None
    else if b.manifest.Some? then Some(b.manifest.value)
    else Some(FallbackImageList(b))
  }

  /** The list `get_image_list(force_refresh)` returns for a given cache. */
  function ListedImages(cache: Option<seq<string>>, forceRefresh: bool,
                        parUrl: string, namespace: string, bucketName: string, b: Backends): seq<string>
  {
    if cache.Some? && !forceRefresh then cache.value
    else FetchImageList(parUrl, namespace, bucketName, b).GetOr([])
  }

  /** Without a PAR URL and without a usable SDK listing the list is empty and nothing is cached. */
  lemma NoSourceNoImages(namespace: string, bucketName: string, b: Backends)
    requires !(b.sdkClient && namespace != "" && bucketName != "" && b.sdkListing.Some?)
    ensures FetchImageList("", namespace, bucketName, b) == None
    ensures ListedImages(None, false, "", namespace, bucketName, b) == []
  {
  }

  // ---------------------------------------------------------------------------
  // URLs: `_extract_base_url` and `get_image_url`
  // ---------------------------------------------------------------------------

  /** `f"{scheme}://{netloc}{path}"` of the parsed PAR URL. */
  function ExtractBaseUrl(parUrl: string): string {
    var p := Url.UrlParse(parUrl);
    p.scheme + "://" + p.netloc + p.path
  }

  /**
   * `get_image_url`: under the PAR URL's base when there is one, otherwise
   * the regional Object Storage URL with namespace and bucket.
   */
  function ImageUrl(parUrl: string, namespace: string, bucketName: string,
                    regionEnv: Option<string>, name: string): (r: string)
    ensures |r| > |name| && r[|r| - |name| - 1..] == "/" + name
  {
    var base := ImageBase(parUrl, namespace, bucketName, regionEnv);
    assert base + "/" + name == base + ("/" + name);
    base + "/" + name
  }

  /** What `get_image_url` puts before `/name`. */
  function ImageBase(parUrl: string, namespace: string, bucketName: string, regionEnv: Option<string>): string {
    if parUrl != "" then ExtractBaseUrl(parUrl)
    else "https://objectstorage." + regionEnv.GetOr(DEFAULT_REGION) + ".oraclecloud.com/n/"
         + namespace + "/b/" + bucketName + "/o"
  }

  /**
   * With a PAR URL, an image's URL is the PAR URL's scheme (lower-cased),
   * `://`, host and path, then `/` and the name: query and fragment dropped.
   */
  lemma ParImageUrl(scheme: string, netloc: string, path: string,
                    query: Option<string>, fragment: Option<string>,
                    namespace: string, bucketName: string, regionEnv: Option<string>, name: string)
    requires Url.WellFormedParts(scheme, netloc, path, query, fragment)
    ensures ImageUrl(Url.Compose(scheme, netloc, path, query, fragment), namespace, bucketName, regionEnv, name)
         == LowerAscii(scheme) + "://" + netloc + path + "/" + name
  {
    Url.ParseComposed(scheme, netloc, path, query, fragment);
  }

  // ---------------------------------------------------------------------------
  // PAR path scan: `_extract_bucket_info_from_par`
  // ---------------------------------------------------------------------------

  /** The `/`-separated segments of a URL's path (app.py:89-91). */
  function PathSegments(parUrl: string): seq<string> {
    Split(Url.UrlParse(parUrl).path, '/')
  }

  /** Segment `i` is `marker` and has a successor. */
  predicate IsMarkerAt(parts: seq<string>, i: int, marker: string) {
    0 <= i && i + 1 < |parts| && parts[i] == marker
  }

  /** The first index at or after `from` holding `marker` with a successor, or |parts|. */
  function FirstMarker(parts: seq<string>, marker: string, from: nat): (r: nat)
    requires from <= |parts|
    ensures from <= r <= |parts|
    ensures forall k :: from <= k < r ==> !IsMarkerAt(parts, k, marker)
    ensures r < |parts| ==> IsMarkerAt(parts, r, marker)
    decreases |parts| - from
  {
    if from == |parts| || IsMarkerAt(parts, from, marker) then from
    else FirstMarker(parts, marker, from + 1)
  }

  /** The (namespace, bucket) the scan loop leaves when started at segment `i`. */
  function ScanPar(parts: seq<string>, i: nat, namespace: string, bucketName: string): (string, string)
    requires i <= |parts|
    decreases |parts| - i
  {
    if i == |parts| then (namespace, bucketName)
    else if IsMarkerAt(parts, i, "n") then ScanPar(parts, i + 1, parts[i + 1], bucketName)
    else if IsMarkerAt(parts, i, "b") then (namespace, parts[i + 1])
    else ScanPar(parts, i + 1, namespace, bucketName)
  }

  /**
   * The scan from segment `i`: the bucket is the successor of the first `b`
   * marker (unchanged without one); the namespace is the successor of the last
   * `n` marker before that point (unchanged without one).
   */
  lemma {:induction false} ScanParResult(parts: seq<string>, i: nat, namespace: string, bucketName: string)
    requires i <= |parts|
    ensures var e := FirstMarker(parts, "b", i);
            var r := ScanPar(parts, i, namespace, bucketName);
            && r.1 == (if e < |parts| then parts[e + 1] else bucketName)
            && ((forall j :: i <= j < e ==> !IsMarkerAt(parts, j, "n")) ==> r.0 == namespace)
            && (forall j :: (i <= j < e && IsMarkerAt(parts, j, "n")
                               && forall m :: j < m < e ==> !IsMarkerAt(parts, m, "n")) ==> r.0 == parts[j + 1])
    decreases |parts| - i
  {
    if i < |parts| {
      if IsMarkerAt(parts, i, "n") {
        ScanParResult(parts, i + 1, parts[i + 1], bucketName);
      } else if !IsMarkerAt(parts, i, "b") {
        ScanParResult(parts, i + 1, namespace, bucketName);
      }
    }
  }

  // ---------------------------------------------------------------------------
  // Pages: the slice and the summary of `get_paginated_images`
  // ---------------------------------------------------------------------------

  /** How Python clamps a slice bound: negative counts from the end, then into 0..n. */
  function ClampIndex(i: int, n: nat): (r: nat)
    ensures r <= n
    ensures 0 <= i <= n ==> r == i
    ensures i > n ==> r == n
    ensures i < 0 ==> r == (if i + n < 0 then 0 else i + n)
  {
    if i < 0 then (if i + n < 0 then 0 else i + n)
    else if i > n then n
    else i
  }

  /** Python `s[i:j]`. */
  function PySlice<T>(s: seq<T>, i: int, j: int): seq<T> {
    var a := ClampIndex(i, |s|);
    var b := ClampIndex(j, |s|);
    if a < b then s[a..b] else []
  }

  /** `all_images[start_idx:end_idx]` with `start_idx = (page - 1) * per_page` (app.py:289-292). */
  function PageSlice(all: seq<string>, page: int, perPage: int): seq<string> {
    var start := (page - 1) * perPage;
    PySlice(all, start, start + perPage)
  }

  /** `(total_images + per_page - 1) // per_page` (app.py:312). */
  function TotalPages(totalImages: nat, perPage: int): int
    requires perPage > 0
  {
    (totalImages + perPage - 1) / perPage
  }

  /** The `pagination` object (app.py:308-315). */
  function PaginationFor(page: int, perPage: int, totalImages: nat): Pagination
    requires perPage > 0
  {
    var start := (page - 1) * perPage;
    Pagination(page, perPage, totalImages, TotalPages(totalImages, perPage),
               page > 1, start + perPage < totalImages)
  }

  /**
   * For a page from 1 on, the page holds the images from `(page-1)*perPage`
   * on, in list order, up to `perPage` of them and up to the end of the list.
   */
  lemma PageWindow(all: seq<string>, page: int, perPage: int)
    requires page >= 1 && perPage > 0
    ensures var start := (page - 1) * perPage;
            var s := PageSlice(all, page, perPage);
            && |s| == (if start >= |all| then 0
                       else if start + perPage <= |all| then perPage
                       else |all| - start)
            && |s| <= perPage
            && forall k :: 0 <= k < |s| ==> s[k] == all[start + k]
  {
    var start := (page - 1) * perPage;
    assert start >= 0 by {
      MulNonNegative(page - 1, perPage);
    }
  }

  lemma MulNonNegative(a: int, b: int)
    requires a >= 0 && b >= 0
    ensures a * b >= 0
  {
  }

  /** The page count is the least number of pages that holds every image, and 0 for no images. */
  lemma TotalPagesIsCeiling(totalImages: nat, perPage: int)
    requires perPage > 0
    ensures var t := TotalPages(totalImages, perPage);
            && t >= 0
            && (totalImages == 0 <==> t == 0)
            && t * perPage >= totalImages
            && (t - 1) * perPage < totalImages + (if totalImages == 0 then perPage else 0)
  {
    var n := totalImages + perPage - 1;
    var t := n / perPage;
    var r := n % perPage;
    assert n == t * perPage + r && 0 <= r < perPage;
    assert t * perPage == n - r;
    assert (t - 1) * perPage == n - r - perPage;
  }

  /** `has_prev` holds exactly from page 2 on; `has_next` for a page from 1 on exactly before the last page. */
  lemma HasNextBeforeLastPage(page: int, perPage: int, totalImages: nat)
    requires page >= 1 && perPage > 0
    ensures PaginationFor(page, perPage, totalImages).hasPrev <==> page > 1
    ensures PaginationFor(page, perPage, totalImages).hasNext <==> page * perPage < totalImages
    ensures PaginationFor(page, perPage, totalImages).hasNext <==> page < TotalPages(totalImages, perPage)
  {
    var t := TotalPages(totalImages, perPage);
    TotalPagesIsCeiling(totalImages, perPage);
    assert (page - 1) * perPage + perPage == page * perPage;
    if page < t {
      assert page <= t - 1;
      MulMonotone(page, t - 1, perPage);
    } else {
      MulMonotone(t, page, perPage);
    }
  }

  lemma MulMonotone(a: int, b: int, c: int)
    requires a <= b && c >= 0
    ensures a * c <= b * c
  {
    assert b * c - a * c == (b - a) * c;
    MulNonNegative(b - a, c);
  }

  /** Image `i` of the list is entry `i % perPage` of page `i / perPage + 1`. */
  lemma ImageOnItsPage(all: seq<string>, i: int, perPage: int)
    requires 0 <= i < |all| && perPage > 0
    ensures var s := PageSlice(all, i / perPage + 1, perPage);
            i % perPage < |s| && s[i % perPage] == all[i]
  {
    var page := i / perPage + 1;
    assert (page - 1) * perPage == i - i % perPage;
    PageWindow(all, page, perPage);
  }

  /** A page after the last page is empty. */
  lemma PageAfterLastIsEmpty(all: seq<string>, page: int, perPage: int)
    requires perPage > 0 && page > TotalPages(|all|, perPage)
    ensures PageSlice(all, page, perPage) == []
  {
    var t := TotalPages(|all|, perPage);
    TotalPagesIsCeiling(|all|, perPage);
    MulMonotone(t, page - 1, perPage);
    PageWindow(all, page, perPage);
  }

  /**
   * Page 0 is empty, and a negative page counts back from the end of the list,
   * as Python's negative slice bounds do.
   */
  lemma PagesBelowOne(all: seq<string>, page: int, perPage: int)
    requires page <= 0 && perPage > 0
    ensures page == 0 ==> PageSlice(all, page, perPage) == []
    ensures page < 0 && (1 - page) * perPage <= |all| ==>
              PageSlice(all, page, perPage) == all[|all| + (page - 1) * perPage .. |all| + page * perPage]
  {
    assert (page - 1) * perPage + perPage == page * perPage;
    MulMonotone(page, 0, perPage);
    if page < 0 && (1 - page) * perPage <= |all| {
      assert (1 - page) * perPage == -((page - 1) * perPage);
    }
  }

  // ---------------------------------------------------------------------------
  // The viewer object
  // ---------------------------------------------------------------------------

  class ImageViewer {
    const parUrl: string
    var namespace: string
    var bucketName: string
    /** `_image_list`: None until a list has been fetched. */
    var imageList: Option<seq<string>>
    /** The OCI_REGION environment variable. */
    const regionEnv: Option<string>

    /**
     * `ImageViewer(par_url, namespace=…, bucket_name=…)`: missing arguments
     * fall back to OCI_NAMESPACE and OCI_BUCKET_NAME, then a PAR URL may
     * override them (app.py:72-84).
     */
    constructor (parUrl: string, namespace: string, bucketName: string,
                 envNamespace: string, envBucketName: string, regionEnv: Option<string>)
      ensures this.parUrl == parUrl && this.regionEnv == regionEnv && imageList == None
      ensures var ns := if namespace != "" then namespace else envNamespace;
              var b := if bucketName != "" then bucketName else envBucketName;
              (this.namespace, this.bucketName)
                == (if parUrl != "" then ScanPar(PathSegments(parUrl), 0, ns, b) else (ns, b))
    {
      this.parUrl := parUrl;
      this.regionEnv := regionEnv;
      this.namespace := if namespace != "" then namespace else envNamespace;
      this.bucketName := if bucketName != "" then bucketName else envBucketName;
      imageList := None;
      new;
      if parUrl != "" {
        ExtractBucketInfoFromPar(parUrl);
      }
    }

    /** `_extract_bucket_info_from_par`: the `n`/`b` scan over the PAR URL's path segments. */
    method ExtractBucketInfoFromPar(par: string)
      modifies this`namespace, this`bucketName
      ensures (namespace, bucketName) == ScanPar(PathSegments(par), 0, old(namespace), old(bucketName))
    {
      var parts := PathSegments(par);
      var i := 0;
      while i < |parts|
        invariant 0 <= i <= |parts|
        invariant ScanPar(parts, i, namespace, bucketName) == ScanPar(parts, 0, old(namespace), old(bucketName))
      {
        if parts[i] == "n" && i + 1 < |parts| {
          namespace := parts[i + 1];
        } else if parts[i] == "b" && i + 1 < |parts| {
          bucketName := parts[i + 1];
          break;
        }
        i := i + 1;
      }
    }

    /** `get_image_url(name)`. */
    function GetImageUrl(name: string): string
      reads this
    {
      ImageUrl(parUrl, namespace, bucketName, regionEnv, name)
    }

    /**
     * `get_image_list(force_refresh)`: the cached list unless a refresh is
     * forced; otherwise the fetched list, which is cached unless it is the
     * empty answer for a missing PAR URL.
     */
    method GetImageList(forceRefresh: bool, backends: Backends) returns (names: seq<string>)
      modifies this`imageList
      ensures old(imageList).Some? && !forceRefresh ==> names == old(imageList).value && imageList == old(imageList)
      ensures names == ListedImages(old(imageList), forceRefresh, parUrl, namespace, bucketName, backends)
      ensures old(imageList).None? || forceRefresh ==>
                var fetched := FetchImageList(parUrl, namespace, bucketName, backends);
                imageList == (if fetched.Some? then fetched else old(imageList))
    {
      if imageList.Some? && !forceRefresh {
        return imageList.value;
      }
      var fetched := FetchImageList(parUrl, namespace, bucketName, backends);
      if fetched.Some? {
        imageList := fetched;
        names := fetched.value;
      } else {
        names := [];
      }
    }

    /** The record `get_paginated_images` makes for one name. */
    function Entry(name: string, thumbnailOf: string -> Option<string>): (e: ImageRecord)
      reads this
      ensures e.name == name && e.url == GetImageUrl(name) && e.thumbnail == thumbnailOf(name)
    {
      ImageRecord(name, GetImageUrl(name), thumbnailOf(name))
    }

    /** The `image_data` loop: one record per name, in order (app.py:297-304). */
    method BuildImageData(names: seq<string>, thumbnailOf: string -> Option<string>) returns (data: seq<ImageRecord>)
      ensures |data| == |names|
      ensures forall k :: 0 <= k < |names| ==> data[k] == Entry(names[k], thumbnailOf)
    {
      var base := ImageBase(parUrl, namespace, bucketName, regionEnv);
      data := [];
      for i := 0 to |names|
        invariant |data| == i
        invariant forall k :: 0 <= k < i ==> data[k] == ImageRecord(names[k], base + "/" + names[k], thumbnailOf(names[k]))
      {
        data := data + [ImageRecord(names[i], base + "/" + names[i], thumbnailOf(names[i]))];
      }
    }

    /** `get_paginated_images(page, per_page)`. */
    method GetPaginatedImages(page: int, perPage: int, backends: Backends, thumbnailOf: string -> Option<string>)
      returns (r: PageResponse)
      requires perPage > 0
      modifies this`imageList
      ensures var all := ListedImages(old(imageList), false, parUrl, namespace, bucketName, backends);
              var names := PageSlice(all, page, perPage);
              && r.pagination == PaginationFor(page, perPage, |all|)
              && |r.images| == |names|
              && forall k :: 0 <= k < |names| ==> r.images[k] == Entry(names[k], thumbnailOf)
      ensures imageList == if old(imageList).Some? then old(imageList)
                           else FetchImageList(parUrl, namespace, bucketName, backends)
    {
      var all := GetImageList(false, backends);
      var names := PageSlice(all, page, perPage);
      var data := BuildImageData(names, thumbnailOf);
      r := PageResponse(data, PaginationFor(page, perPage, |all|));
    }
  }

  // ---------------------------------------------------------------------------
  // Authentication: `login_required` and `login`
  // ---------------------------------------------------------------------------

  /** What `login_required` does with a request. */
  datatype GuardDecision =
    | Proceed                      // the view runs
    | Unauthorized                 // JSON `{"error": "Unauthorized"}` with status 401
    | RedirectToLogin(next: string) // to the login page, remembering the requested URL

  /** The decision of `login_required` for a request with this path, Accept header and URL. */
  function LoginRequired(authenticated: bool, path: string, accept: Option<string>, url: string): (d: GuardDecision)
    ensures d.Proceed? <==> authenticated
    ensures d.Unauthorized? <==>
              !authenticated && (StartsWith(path, "/api") || exists i :: OccursAt(accept.GetOr(""), "application/json", i))
    ensures d.RedirectToLogin? ==> d.next == url
  {
    if authenticated then Proceed
    else if StartsWith(path, "/api") || Contains(accept.GetOr(""), "application/json") then Unauthorized
    else RedirectToLogin(url)
  }

  /** A request for an `/api…` path or one that accepts JSON never gets the redirect. */
  lemma JsonRequestsGet401(path: string, acceptBefore: string, acceptAfter: string, url: string)
    ensures LoginRequired(false, "/api" + path, None, url) == Unauthorized
    ensures LoginRequired(false, path, Some(acceptBefore + "application/json" + acceptAfter), url) == Unauthorized
  {
    assert ("/api" + path)[..4] == "/api";
    ContainsInfix(acceptBefore, "application/json", acceptAfter);
  }

  datatype PasswordCheck = NotConfigured | Accepted | Rejected

  /** The password test of `login` (app.py:56-63). */
  function CheckPassword(configured: string, given: string): (c: PasswordCheck)
    ensures c == NotConfigured <==> configured == ""
    ensures c == Accepted <==> configured != "" && given == configured
  {
    if configured == "" then NotConfigured
    else if given == configured then Accepted
    else Rejected
  }

  /** What `/login` answers: the form, with an error or not, or a redirect. */
  datatype LoginOutcome = LoginForm(error: Option<string>) | RedirectTo(target: string)

  /** The session's `authenticated` flag and the routes that change it. */
  class Session {
    var authenticated: bool

    constructor ()
      ensures !authenticated
    {
      authenticated := false;
    }

    /** `login_required` for this session. */
    function Guard(path: string, accept: Option<string>, url: string): GuardDecision
      reads this
    {
      LoginRequired(authenticated, path, accept, url)
    }

    /**
     * `/login`: a POST with the configured, non-empty password authenticates
     * the session and redirects to `next`, or to the index; anything else
     * shows the form.
     */
    method Login(isPost: bool, password: string, configured: string, next: Option<string>) returns (out: LoginOutcome)
      modifies this
      ensures authenticated == (old(authenticated) || (isPost && CheckPassword(configured, password) == Accepted))
      ensures configured == "" ==> authenticated == old(authenticated)
      ensures !isPost ==> out == LoginForm(None)
      ensures isPost ==> out == match CheckPassword(configured, password)
                                case NotConfigured => LoginForm(Some("Server is not configured. Contact admin."))
                                case Rejected => LoginForm(Some("Invalid password"))
                                case Accepted => RedirectTo(if next.Some? && next.value != "" then next.value else "/")
    {
      out := LoginForm(None);
      if isPost {
        var check := CheckPassword(configured, password);
        if check == NotConfigured {
          out := LoginForm(Some("Server is not configured. Contact admin."));
        } else if check == Accepted {
          authenticated := true;
          out := RedirectTo(if next.Some? && next.value != "" then next.value else "/");
        } else {
          out := LoginForm(Some("Invalid password"));
        }
      }
    }

    /** `/logout`: the session is cleared and the browser sent to the login page. */
    method Logout() returns (target: string)
      modifies this
      ensures !authenticated
      ensures target == "/login"
    {
      authenticated := false;
      target := "/login";
    }
  }
}
