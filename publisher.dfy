/** Publishing variant images (worker/official.py): object keys under the
    bucket prefix, the idempotent upload over an abstract object store, the
    static-directory variant and the `ImageStats` counters the handlers keep.
    The network and the storage service are replaced by a set of existing
    keys or files and a fetch outcome passed in by the caller. */
module Publisher {
  import opened Wrappers
  import opened Text

  const StaticImgSubpath: string := "img"

  /** `not url` for an optional URL. */
  predicate Missing(url: Option<string>)
  {
    url.None? || url.value == ""
  }

  /** The prefix the uploader keeps: `(raw or "").strip().strip("/")`, then a
      single `/` appended when anything is left. */
  function NormalizePrefix(raw: Option<string>): (r: string)
    ensures r == "" || (|r| >= 2 && r[|r| - 1] == '/' && r[|r| - 2] != '/' && r[0] != '/')
    ensures var core := Strip(StripSpace(if raw.Some? then raw.value else ""), {'/'});
      && (core == "" <==> r == "")
      && (core != "" ==> r[..|r| - 1] == core)
  {
    var text := if raw.Some? then raw.value else "";
    var p := Strip(StripSpace(text), {'/'});
    if p != "" then p + "/" else ""
  }

  /** `_prefixed_key`: the prefix followed by the path without its leading
      slashes. */
  function PrefixedKey(prefix: string, relativePath: string): (r: string)
    ensures StartsWith(r, prefix) && r[|prefix|..] == LStrip(relativePath, {'/'})
    ensures |r| > |prefix| ==> r[|prefix|] != '/'
  {
    var clean := LStrip(relativePath, {'/'});
    if prefix != "" then prefix + clean else clean
  }

  /** `build_public_url`: the base URL, one `/`, the prefix, then the path
      without its leading slashes. */
  function PublicUrl(publicBaseUrl: string, prefix: string, relativePath: string): (r: string)
    ensures StartsWith(r, publicBaseUrl + "/" + prefix)
    ensures r[|publicBaseUrl| + 1 + |prefix|..] == LStrip(relativePath, {'/'})
  {
    var head, key := publicBaseUrl + "/", PrefixedKey(prefix, relativePath);
    var clean := LStrip(relativePath, {'/'});
    assert key == prefix + clean by {
      assert key == key[..|prefix|] + key[|prefix|..];
    }
    assert head + key == (head + prefix) + clean;
    head + key
  }

  /** Leading slashes of a relative path do not change its key. */
  lemma KeyIgnoresLeadingSlash(prefix: string, relativePath: string)
    ensures PrefixedKey(prefix, "/" + relativePath) == PrefixedKey(prefix, relativePath)
  {
    assert ("/" + relativePath)[1..] == relativePath;
  }

  /** Under a configured prefix, a key is the prefix text, one `/`, then the
      path without leading slashes: never a doubled slash at the junction. */
  lemma PrefixJunction(raw: Option<string>, relativePath: string)
    requires NormalizePrefix(raw) != ""
    ensures var prefix := NormalizePrefix(raw);
      var key := PrefixedKey(prefix, relativePath);
      && key[|prefix| - 1] == '/' && key[|prefix| - 2] != '/'
      && (|key| > |prefix| ==> key[|prefix|] != '/')
  {
  }

  /** The object path of a variant image: `img/<folder>/<code>.png`, the
      folder stripped of slashes and left out when nothing remains. */
  function ImagePath(setFolder: string, variantNumber: string): (r: string)
    ensures Strip(setFolder, {'/'}) == "" ==> r == StaticImgSubpath + "/" + variantNumber + ".png"
    ensures Strip(setFolder, {'/'}) != "" ==>
      r == StaticImgSubpath + "/" + Strip(setFolder, {'/'}) + "/" + variantNumber + ".png"
  {
    var folder := if setFolder != "" then Strip(setFolder, {'/'}) else "";
    assert setFolder == "" ==> Strip(setFolder, {'/'}) == "";
    var file := variantNumber + ".png";
    if folder != "" then
      JoinThree(StaticImgSubpath, folder, file);
      JoinSlash([StaticImgSubpath, folder, file])
    else
      JoinTwo(StaticImgSubpath, file);
      JoinSlash([StaticImgSubpath, file])
  }

  lemma JoinTwo(a: string, b: string)
    ensures JoinSlash([a, b]) == a + "/" + b
  {
    assert [a, b][1..] == [b];
  }

  lemma JoinThree(a: string, b: string, c: string)
    ensures JoinSlash([a, b, c]) == a + "/" + b + "/" + c
  {
    assert [a, b, c][1..] == [b, c];
    JoinTwo(b, c);
  }

  /** `"/".join(parts)`. */
  function JoinSlash(parts: seq<string>): (r: string)
  {
    if parts == [] then ""
    else if |parts| == 1 then parts[0]
    else parts[0] + "/" + JoinSlash(parts[1..])
  }

  /** The folder the mapper passes is that of `resolve_set_folder`: for a
      card with a set id, its images go under that set id. */
  lemma ImagePathForSet(setId: string, variantNumber: string)
    requires setId != "" && setId[0] != '/' && setId[|setId| - 1] != '/'
    ensures ImagePath(setId, variantNumber) == StaticImgSubpath + "/" + setId + "/" + variantNumber + ".png"
  {
    assert LStrip(setId, {'/'}) == setId;
    assert RStrip(setId, {'/'}) == setId;
  }

  /** What happens to an image fetch that is attempted: the download
      succeeds and the upload too, the download fails, or the upload fails. */
  datatype Fetch = Fetched | DownloadFailed | UploadFailed

  /** The outcome of one publication: the URL the card records, whether a
      new object was written, and the keys the store then holds. */
  datatype Upload = Upload(imageUrl: string, isNew: bool, objects: set<string>)

  /** `upload_variant_image` over a store holding the keys `objects`. */
  function UploadSpec(objects: set<string>, prefix: string, publicBaseUrl: string, url: Option<string>,
                      setFolder: string, variantNumber: string, fetch: Fetch): Upload
  {
    if Missing(url) then Upload("", false, objects)
    else
      var path := ImagePath(setFolder, variantNumber);
      if PrefixedKey(prefix, path) in objects then Upload(PublicUrl(publicBaseUrl, prefix, path), false, objects)
      else match fetch
        case Fetched => Upload(PublicUrl(publicBaseUrl, prefix, path), true, objects + {PrefixedKey(prefix, path)})
        case _ => Upload(url.value, false, objects)
  }

  /** A missing URL publishes nothing and leaves the store alone. */
  lemma UploadMissingUrl(objects: set<string>, prefix: string, publicBaseUrl: string, url: Option<string>,
                         setFolder: string, variantNumber: string, fetch: Fetch)
    requires Missing(url)
    ensures UploadSpec(objects, prefix, publicBaseUrl, url, setFolder, variantNumber, fetch) == Upload("", false, objects)
  {
  }

  /** A publication only ever adds the image's own key; it reports a new
      image exactly when that key was absent and is now present, and then
      the URL is the public URL of the key. A failed fetch records the
      source URL. */
  lemma UploadEffect(objects: set<string>, prefix: string, publicBaseUrl: string, url: Option<string>,
                     setFolder: string, variantNumber: string, fetch: Fetch)
    ensures var path := ImagePath(setFolder, variantNumber);
      var key := PrefixedKey(prefix, path);
      var u := UploadSpec(objects, prefix, publicBaseUrl, url, setFolder, variantNumber, fetch);
      && objects <= u.objects && u.objects <= objects + {key}
      && (u.isNew <==> key !in objects && key in u.objects)
      && (u.isNew ==> u.imageUrl == PublicUrl(publicBaseUrl, prefix, path))
      && (!Missing(url) && key in objects ==> u.imageUrl == PublicUrl(publicBaseUrl, prefix, path))
      && (!Missing(url) && key !in objects && fetch != Fetched ==> u.imageUrl == url.value && u.objects == objects)
  {
  }

  /** Publication is idempotent: once an image has been stored, publishing
      it again, whatever the fetch would do, writes nothing, reports no new
      image and yields the same public URL. */
  lemma UploadIdempotent(objects: set<string>, prefix: string, publicBaseUrl: string, url: Option<string>,
                         setFolder: string, variantNumber: string, fetch: Fetch, again: Fetch)
    requires !Missing(url)
    ensures var first := UploadSpec(objects, prefix, publicBaseUrl, url, setFolder, variantNumber, fetch);
      var second := UploadSpec(first.objects, prefix, publicBaseUrl, url, setFolder, variantNumber, again);
      first.isNew ==> second == Upload(first.imageUrl, false, first.objects)
  {
  }

  /** `SpacesUploader`, reduced to its prefix, its public base URL and the
      keys present in the bucket. */
  class Uploader {
    const prefix: string
    const publicBaseUrl: string
    var objects: set<string>

    constructor(rawPrefix: Option<string>, publicBaseUrl: string, existing: set<string>)
      ensures prefix == NormalizePrefix(rawPrefix) && this.publicBaseUrl == publicBaseUrl
      ensures objects == existing
    {
      prefix := NormalizePrefix(rawPrefix);
      this.publicBaseUrl := publicBaseUrl;
      objects := existing;
    }

    /** `object_exists`. */
    predicate ObjectExists(relativePath: string)
      reads this
    {
      PrefixedKey(prefix, relativePath) in objects
    }

    /** `upload_stream`: writes the object and returns its public URL. */
    method UploadStream(relativePath: string) returns (url: string)
      modifies this
      ensures objects == old(objects) + {PrefixedKey(prefix, relativePath)}
      ensures url == PublicUrl(publicBaseUrl, prefix, relativePath)
    {
      objects := objects + {PrefixedKey(prefix, relativePath)};
      url := publicBaseUrl + "/" + PrefixedKey(prefix, relativePath);
    }
  }

  /** `upload_variant_image`: nothing for a missing URL; the existing
      object's URL when the key is present; otherwise fetch and upload. */
  method UploadVariantImage(url: Option<string>, setFolder: string, variantNumber: string,
                            uploader: Uploader, fetch: Fetch) returns (imageUrl: string, isNew: bool)
    modifies uploader
    ensures Upload(imageUrl, isNew, uploader.objects)
         == UploadSpec(old(uploader.objects), uploader.prefix, uploader.publicBaseUrl, url, setFolder, variantNumber, fetch)
  {
    if Missing(url) {
      return "", false;
    }
    var relativePath := ImagePath(setFolder, variantNumber);
    if uploader.ObjectExists(relativePath) {
      return PublicUrl(uploader.publicBaseUrl, uploader.prefix, relativePath), false;
    }
    match fetch
    case Fetched =>
      imageUrl := uploader.UploadStream(relativePath);
      isNew := true;
    case _ =>
      imageUrl, isNew := url.value, false;
  }

  /** `ImageStats`: counters over one run of the handlers. */
  class ImageStats {
    var totalVariants: nat
    var newImages: nat
    var missingImageUrls: nat

    constructor()
      ensures totalVariants == 0 && newImages == 0 && missingImageUrls == 0
      ensures Valid()
    {
      totalVariants, newImages, missingImageUrls := 0, 0, 0;
    }

    /** Each call is counted once, and at most once as new or as missing. */
    predicate Valid()
      reads this
    {
      newImages + missingImageUrls <= totalVariants
    }

    /** The counting every handler call does: one more variant, one more
        missing URL when the URL is missing, one more new image when the
        publication wrote one. */
    method Record(missing: bool, isNew: bool)
      requires !(missing && isNew)
      modifies this
      ensures totalVariants == old(totalVariants) + 1
      ensures missingImageUrls == old(missingImageUrls) + (if missing then 1 else 0)
      ensures newImages == old(newImages) + (if isNew then 1 else 0)
      ensures old(Valid()) ==> Valid()
    {
      totalVariants := totalVariants + 1;
      if missing {
        missingImageUrls := missingImageUrls + 1;
      }
      if isNew {
        newImages := newImages + 1;
      }
    }
  }

  /** The handler of `make_spaces_image_handler`. */
  method SpacesHandler(stats: ImageStats, uploader: Uploader, url: Option<string>, setFolder: string,
                       variantNumber: string, fetch: Fetch) returns (imageUrl: string)
    modifies stats, uploader
    ensures var u := UploadSpec(old(uploader.objects), uploader.prefix, uploader.publicBaseUrl, url,
                                setFolder, variantNumber, fetch);
      && imageUrl == u.imageUrl && uploader.objects == u.objects
      && stats.totalVariants == old(stats.totalVariants) + 1
      && stats.missingImageUrls == old(stats.missingImageUrls) + (if Missing(url) then 1 else 0)
      && stats.newImages == old(stats.newImages) + (if u.isNew then 1 else 0)
    ensures old(stats.Valid()) ==> stats.Valid()
  {
    if Missing(url) {
      stats.Record(true, false);
      return "";
    }
    var isNew;
    imageUrl, isNew := UploadVariantImage(url, setFolder, variantNumber, uploader, fetch);
    stats.Record(false, isNew);
  }

  /** The image path inside the static output's image directory: the
      non-empty parts among the stripped folder and `<code>.png`. */
  function StaticRelativePath(setFolder: string, variantNumber: string): (r: string)
    ensures EndsWith(r, variantNumber + ".png")
    ensures Strip(setFolder, {'/'}) == "" ==> r == variantNumber + ".png"
    ensures Strip(setFolder, {'/'}) != "" ==> r == Strip(setFolder, {'/'}) + "/" + variantNumber + ".png"
  {
    var folder := if setFolder != "" then Strip(setFolder, {'/'}) else "";
    assert setFolder == "" ==> Strip(setFolder, {'/'}) == "";
    if folder != "" then folder + "/" + variantNumber + ".png" else variantNumber + ".png"
  }

  /** The static directory keeps an image at the path the bucket uses under
      `img/`, so both outputs name one image the same way. */
  lemma StaticPathIsImagePath(setFolder: string, variantNumber: string)
    ensures ImagePath(setFolder, variantNumber) == StaticImgSubpath + "/" + StaticRelativePath(setFolder, variantNumber)
  {
    var folder := Strip(setFolder, {'/'});
    if folder != "" {
      Regroup(StaticImgSubpath + "/", folder, "/", variantNumber, ".png");
    } else {
      Regroup(StaticImgSubpath + "/", variantNumber, ".png", "", "");
    }
  }

  /** Concatenation regrouped behind a fixed head. */
  lemma Regroup(head: string, a: string, b: string, c: string, d: string)
    ensures head + a + b + c + d == head + (a + b + c + d)
  {
  }

  /** What `store_variant_image_static` returns: a pair, or, on its
      missing-URL path, a bare string. */
  datatype StaticResult = Pair(imageUrl: string, isNew: bool) | Bare(text: string)

  /** `store_variant_image_static` as written, over the files already in
      the image directory, with whether the download succeeds. */
  function StoreStaticAsWritten(files: set<string>, url: Option<string>, setFolder: string, variantNumber: string,
                                downloaded: bool): (StaticResult, set<string>)
  {
    if Missing(url) then (Bare(""), files)
    else
      var path := StaticRelativePath(setFolder, variantNumber);
      var local := "/" + StaticImgSubpath + "/" + path;
      if path in files then (Pair(local, false), files)
      else if downloaded then (Pair(local, true), files + {path})
      else (Pair(url.value, false), files)
  }

  /** `store_variant_image_static` returning the pair `("", False)` its
      signature promises on the missing-URL path. */
  function StoreStatic(files: set<string>, url: Option<string>, setFolder: string, variantNumber: string,
                       downloaded: bool): (u: Upload)
    ensures Missing(url) ==> u == Upload("", false, files)
    ensures !Missing(url) ==> StoreStaticAsWritten(files, url, setFolder, variantNumber, downloaded)
                              == (Pair(u.imageUrl, u.isNew), u.objects)
  {
    if Missing(url) then Upload("", false, files)
    else
      var path := StaticRelativePath(setFolder, variantNumber);
      var local := "/" + StaticImgSubpath + "/" + path;
      if path in files then Upload(local, false, files)
      else if downloaded then Upload(local, true, files + {path})
      else Upload(url.value, false, files)
  }

  /** On a missing URL the function as written returns a bare string, which
      a caller unpacking two values cannot unpack. */
  lemma StaticMissingUrlIsBare(files: set<string>, setFolder: string, variantNumber: string, downloaded: bool)
    ensures !StoreStaticAsWritten(files, None, setFolder, variantNumber, downloaded).0.Pair?
    ensures !StoreStaticAsWritten(files, Some(""), setFolder, variantNumber, downloaded).0.Pair?
  {
  }

  /** The static store is idempotent like the bucket: a stored image is not
      written again, and only its own file is ever added. */
  lemma StaticIdempotent(files: set<string>, url: Option<string>, setFolder: string, variantNumber: string,
                         downloaded: bool, again: bool)
    ensures var first := StoreStatic(files, url, setFolder, variantNumber, downloaded);
      && files <= first.objects && first.objects <= files + {StaticRelativePath(setFolder, variantNumber)}
      && (first.isNew <==> StaticRelativePath(setFolder, variantNumber) !in files && first.objects != files)
      && (first.isNew ==> StoreStatic(first.objects, url, setFolder, variantNumber, again)
                          == Upload(first.imageUrl, false, first.objects))
  {
  }

  /** The files under the static output's image directory. */
  class StaticOutput {
    var files: set<string>

    constructor(existing: set<string>)
      ensures files == existing
    {
      files := existing;
    }
  }

  /** `store_variant_image_static`, with the pair on every path. */
  method StoreVariantImageStatic(url: Option<string>, setFolder: string, variantNumber: string,
                                 output: StaticOutput, downloaded: bool) returns (imageUrl: string, isNew: bool)
    modifies output
    ensures Upload(imageUrl, isNew, output.files) == StoreStatic(old(output.files), url, setFolder, variantNumber, downloaded)
  {
    if Missing(url) {
      return "", false;
    }
    var path := StaticRelativePath(setFolder, variantNumber);
    if path in output.files {
      return "/" + StaticImgSubpath + "/" + path, false;
    }
    if downloaded {
      output.files := output.files + {path};
      return "/" + StaticImgSubpath + "/" + path, true;
    }
    return url.value, false;
  }

  /** The handler of `make_static_image_handler`: it checks the URL before
      calling the store, so the store's missing-URL path is never taken. */
  method StaticHandler(stats: ImageStats, output: StaticOutput, url: Option<string>, setFolder: string,
                       variantNumber: string, downloaded: bool) returns (imageUrl: string)
    modifies stats, output
    ensures var u := StoreStatic(old(output.files), url, setFolder, variantNumber, downloaded);
      && imageUrl == u.imageUrl && output.files == u.objects
      && stats.totalVariants == old(stats.totalVariants) + 1
      && stats.missingImageUrls == old(stats.missingImageUrls) + (if Missing(url) then 1 else 0)
      && stats.newImages == old(stats.newImages) + (if u.isNew then 1 else 0)
    ensures !Missing(url) ==>
      StoreStaticAsWritten(old(output.files), url, setFolder, variantNumber, downloaded) == (Pair(imageUrl, stats.newImages != old(stats.newImages)), output.files)
    ensures old(stats.Valid()) ==> stats.Valid()
  {
    if Missing(url) {
      stats.Record(true, false);
      return "";
    }
    var isNew;
    imageUrl, isNew := StoreVariantImageStatic(url, setFolder, variantNumber, output, downloaded);
    stats.Record(false, isNew);
  }
}
