/**
 * The default Cloudinary URL for an image size and the catalog of image sizes
 * the plugin manages (api.php `default_url` and `sizes`).
 */
module Urls {
  import opened PhpValues

  /**
   * One registered image size: `width` and `height` are `None` when the entry
   * has no such key (PHP `?? null`), and `crop` is carried along unread.
   */
  datatype Size = Size(width: Option<int>, height: Option<int>, crop: Value)

  /** No size name occurs twice, as in any PHP array keyed by name. */
  ghost predicate DistinctNames(c: seq<(string, Size)>) {
    forall i, j :: 0 <= i < j < |c| ==> c[i].0 != c[j].0
  }

  /** The host's catalog of named sizes, in registration order. */
  type Catalog = c: seq<(string, Size)> | DistinctNames(c) witness []

  /** The names of a catalog, in order (`array_keys`). */
  function Names(c: seq<(string, Size)>): (r: seq<string>)
    ensures |r| == |c|
    ensures forall i :: 0 <= i < |c| ==> r[i] == c[i].0
  {
    seq(|c|, i requires 0 <= i < |c| => c[i].0)
  }

  /** A width or height takes part in the URL when it is present and truthy (non-zero). */
  predicate Given(d: Option<int>) {
    d.Some? && d.value != 0
  }

  /** `array_filter` on strings: drops the falsy ones, `""` and `"0"`. */
  function FilterTruthy(parts: seq<string>): (r: seq<string>)
    ensures forall i :: 0 <= i < |r| ==> TruthyString(r[i])
    ensures forall p :: p in r ==> p in parts
    decreases |parts|
  {
    if parts == [] then []
    else (if TruthyString(parts[0]) then [parts[0]] else []) + FilterTruthy(parts[1..])
  }

  /** Every truthy part survives the filter. */
  lemma {:induction false} FilterTruthyKeepsTruthy(parts: seq<string>)
    ensures forall p :: p in parts && TruthyString(p) ==> p in FilterTruthy(parts)
    decreases |parts|
  {
    if parts != [] {
      FilterTruthyKeepsTruthy(parts[1..]);
      forall p | p in parts && TruthyString(p) ensures p in FilterTruthy(parts) {
        if p != parts[0] {
          assert p in parts[1..];
        }
      }
    }
  }

  /** Filtering keeps the order of the parts: it distributes over concatenation. */
  lemma {:induction false} FilterTruthyAppend(a: seq<string>, b: seq<string>)
    ensures FilterTruthy(a + b) == FilterTruthy(a) + FilterTruthy(b)
    decreases |a|
  {
    if a == [] {
      assert a + b == b;
    } else {
      assert (a + b)[1..] == a[1..] + b;
      FilterTruthyAppend(a[1..], b);
    }
  }

  /** The transformation segment of a default URL (api.php:80-84). */
  function Resize(size: Size): string {
    Implode(",", FilterTruthy([
      if Given(size.width) then "w_" + IntToString(size.width.value) else "",
      if Given(size.height) then "h_" + IntToString(size.height.value) else "",
      "c_lfill"
    ]))
  }

  const UrlBase: string := "https://res.cloudinary.com/"

  /** Where every default URL of the cloud `cloud` starts. */
  function UploadPrefix(cloud: string): string {
    UrlBase + cloud + "/image/upload/"
  }

  /** The `/{public_id}.{format}` tail of a URL for the upload result `img`. */
  function AssetTail(img: map<string, Value>): string {
    "/" + (ToStr(Get(img, "public_id")) + "." + ToStr(Get(img, "format")))
  }

  /** The plain scale (lfill) URL for one size of an uploaded image (api.php:76-93). */
  function DefaultUrl(cloud: string, size: Size, img: map<string, Value>): string {
    UploadPrefix(cloud) + Resize(size) + AssetTail(img)
  }

  /** The comma-separated transformation parts of a scale URL for `size`. */
  function ScaleParts(size: Size): seq<string> {
    (if Given(size.width) then ["w_" + IntToString(size.width.value)] else []) +
    (if Given(size.height) then ["h_" + IntToString(size.height.value)] else []) +
    ["c_lfill"]
  }

  /**
   * Every default URL is `https://res.cloudinary.com/{cloud}/image/upload/`,
   * then the transformation segment, then `/{public_id}.{format}`; the
   * segment consists of exactly the parts `ScaleParts(size)`.
   */
  lemma DefaultUrlShape(cloud: string, size: Size, img: map<string, Value>)
    ensures var url := DefaultUrl(cloud, size, img);
      && |url| >= |UploadPrefix(cloud)| + |AssetTail(img)|
      && url[..|UploadPrefix(cloud)|] == UploadPrefix(cloud)
      && url[|url| - |AssetTail(img)|..] == AssetTail(img)
      && SplitCommas(url[|UploadPrefix(cloud)|..|url| - |AssetTail(img)|]) == ScaleParts(size)
  {
    var url := DefaultUrl(cloud, size, img);
    assert url[|UploadPrefix(cloud)|..|url| - |AssetTail(img)|] == Resize(size);
    ResizeParts(size);
  }

  /**
   * The transformation segment, read back by splitting at commas, is exactly
   * `w_<width>` (when the width is given), `h_<height>` (when the height is
   * given) and `c_lfill`, in that order: no empty part, `c_lfill` always last.
   */
  lemma ResizeParts(size: Size)
    ensures SplitCommas(Resize(size)) == ScaleParts(size)
  {
    ResizeFilters(size);
    ScalePartsCommaFree(size);
    SplitImplode(ScaleParts(size));
  }

  /** `array_filter` drops exactly the parts for missing dimensions. */
  lemma ResizeFilters(size: Size)
    ensures Resize(size) == Implode(",", ScaleParts(size))
  {
    var w := if Given(size.width) then "w_" + IntToString(size.width.value) else "";
    var h := if Given(size.height) then "h_" + IntToString(size.height.value) else "";
    assert Given(size.width) ==> w[0] == 'w';
    assert Given(size.height) ==> h[0] == 'h';
    assert [w, h, "c_lfill"][1..] == [h, "c_lfill"];
    assert [h, "c_lfill"][1..] == ["c_lfill"];
    assert FilterTruthy(["c_lfill"]) == ["c_lfill"] by {
      assert ["c_lfill"][1..] == [];
    }
    assert FilterTruthy([w, h, "c_lfill"]) == ScaleParts(size);
  }

  /** No part of a scale segment holds a comma. */
  lemma ScalePartsCommaFree(size: Size)
    ensures forall i :: 0 <= i < |ScaleParts(size)| ==> ',' !in ScaleParts(size)[i]
  {
    var parts := ScaleParts(size);
    forall i | 0 <= i < |parts| ensures ',' !in parts[i] {
      if Given(size.width) {
        assert forall c :: c in IntToString(size.width.value) ==> c != ',';
      }
      if Given(size.height) {
        assert forall c :: c in IntToString(size.height.value) ==> c != ',';
      }
    }
  }

  /** A zero or missing width never yields a `w_` part; likewise for the height. */
  lemma ResizeOmitsMissing(size: Size)
    ensures !Given(size.width) ==> forall p :: p in SplitCommas(Resize(size)) ==> !("w_" <= p)
    ensures !Given(size.height) ==> forall p :: p in SplitCommas(Resize(size)) ==> !("h_" <= p)
  {
    ResizeParts(size);
    var h := "h_" + if Given(size.height) then IntToString(size.height.value) else "";
    assert h[0] == 'h';
    var w := "w_" + if Given(size.width) then IntToString(size.width.value) else "";
    assert w[0] == 'w';
    assert "c_lfill"[0] == 'c';
  }

  /** The case the plugin's own test pins down (test/integration/ApiTest.php:18-32). */
  lemma DefaultUrlExample(size: Size, img: map<string, Value>)
    requires size == Size(Some(150), Some(150), Null)
    requires img == map["public_id" := Str("test/cat"), "format" := Str("jpg")]
    ensures DefaultUrl("my-cloud", size, img)
         == "https://res.cloudinary.com/my-cloud/image/upload/w_150,h_150,c_lfill/test/cat.jpg"
  {
    var prefix, segment, tail := "https://res.cloudinary.com/my-cloud/image/upload/", "w_150,h_150,c_lfill", "/test/cat.jpg";
    ResizeExample(size);
    AssetTailExample(img);
    UploadPrefixExample();
    DefaultUrlParts("my-cloud", size, img, prefix, segment, tail);
    ExampleConcat();
  }

  lemma UploadPrefixExample()
    ensures UploadPrefix("my-cloud") == "https://res.cloudinary.com/my-cloud/image/upload/"
  {
  }

  lemma ExampleConcat()
    ensures "https://res.cloudinary.com/my-cloud/image/upload/" + "w_150,h_150,c_lfill" + "/test/cat.jpg"
         == "https://res.cloudinary.com/my-cloud/image/upload/w_150,h_150,c_lfill/test/cat.jpg"
  {
  }

  lemma DefaultUrlParts(cloud: string, size: Size, img: map<string, Value>, prefix: string, segment: string, tail: string)
    requires UploadPrefix(cloud) == prefix && Resize(size) == segment && AssetTail(img) == tail
    ensures DefaultUrl(cloud, size, img) == prefix + segment + tail
  {
  }

  lemma AssetTailExample(img: map<string, Value>)
    requires img == map["public_id" := Str("test/cat"), "format" := Str("jpg")]
    ensures AssetTail(img) == "/test/cat.jpg"
  {
    assert Get(img, "public_id") == Str("test/cat") && Get(img, "format") == Str("jpg");
  }

  /** With both dimensions given, the segment is `w_<width>,h_<height>,c_lfill`. */
  lemma ResizeBoth(size: Size)
    requires Given(size.width) && Given(size.height)
    ensures Resize(size) == "w_" + IntToString(size.width.value) + "," + "h_" + IntToString(size.height.value) + "," + "c_lfill"
  {
    var w := "w_" + IntToString(size.width.value);
    var h := "h_" + IntToString(size.height.value);
    var parts := [w, h, "c_lfill"];
    ResizeFilters(size);
    assert ScaleParts(size) == parts;
    assert parts[1..] == [h, "c_lfill"] && parts[1..][1..] == ["c_lfill"];
    assert Implode(",", parts) == w + "," + (h + "," + "c_lfill");
  }

  lemma ResizeExample(size: Size)
    requires size == Size(Some(150), Some(150), Null)
    ensures Resize(size) == "w_150,h_150,c_lfill"
  {
    ResizeBoth(size);
    Digits150();
  }

  lemma Digits150()
    ensures IntToString(150) == "150"
  {
    assert NatToString(1) == "1";
    assert NatToString(15) == "15";
  }


  /**
   * The sizes the plugin manages (api.php:95-101): the catalog entries whose
   * names are in the allow-list `allow`, in catalog order, values unchanged.
   */
  function Sizes(catalog: seq<(string, Size)>, allow: seq<string>): (r: seq<(string, Size)>)
    ensures forall e {:trigger e in r} :: e in r <==> e in catalog && e.0 in allow
    ensures |r| <= |catalog|
    ensures DistinctNames(catalog) ==> DistinctNames(r)
    decreases |catalog|
  {
    if catalog == [] then []
    else
      var rest := Sizes(catalog[1..], allow);
      if catalog[0].0 in allow then
        assert DistinctNames(catalog) ==> forall e :: e in rest ==> e.0 != catalog[0].0;
        [catalog[0]] + rest
      else rest
  }

  /** The allow-list the `cumulus/sizes` filter starts from: every catalog name. */
  lemma SizesCons(a: seq<(string, Size)>, b: seq<(string, Size)>, allow: seq<string>)
    requires a != []
    ensures Sizes(a + b, allow) == (if a[0].0 in allow then [a[0]] else []) + Sizes(a[1..] + b, allow)
  {
    assert (a + b)[1..] == a[1..] + b;
    assert (a + b)[0] == a[0];
  }

  /** Filtering keeps the relative order: the filter of a concatenation is the concatenation of the filters. */
  lemma {:induction false} SizesAppend(a: seq<(string, Size)>, b: seq<(string, Size)>, allow: seq<string>)
    ensures Sizes(a + b, allow) == Sizes(a, allow) + Sizes(b, allow)
    decreases |a|
  {
    if a == [] {
      assert a + b == b;
    } else {
      SizesCons(a, b, allow);
      SizesCons(a, [], allow);
      assert a + [] == a && a[1..] + [] == a[1..];
      SizesAppend(a[1..], b, allow);
    }
  }

  /** When every name is allowed, nothing is dropped. */
  lemma {:induction false} SizesAllAllowed(catalog: seq<(string, Size)>, allow: seq<string>)
    requires forall i :: 0 <= i < |catalog| ==> catalog[i].0 in allow
    ensures Sizes(catalog, allow) == catalog
    decreases |catalog|
  {
    if catalog != [] {
      SizesAllAllowed(catalog[1..], allow);
      assert [catalog[0]] + catalog[1..] == catalog;
    }
  }

  /** With the unfiltered allow-list the managed sizes are the whole catalog (test/integration/ApiTest.php:34-36). */
  lemma SizesDefault(catalog: seq<(string, Size)>)
    ensures Sizes(catalog, Names(catalog)) == catalog
  {
    SizesAllAllowed(catalog, Names(catalog));
  }

  /** Filtering twice with the same allow-list changes nothing more. */
  lemma {:induction false} SizesIdempotent(catalog: seq<(string, Size)>, allow: seq<string>)
    ensures Sizes(Sizes(catalog, allow), allow) == Sizes(catalog, allow)
  {
    var r := Sizes(catalog, allow);
    forall i | 0 <= i < |r| ensures r[i].0 in allow {
      assert r[i] in r;
    }
    SizesAllAllowed(r, allow);
  }

  /** WordPress's default catalog restricted to two names (test/integration/ApiTest.php:38-55). */
  lemma SizesExample()
    ensures Sizes([("thumbnail", Size(Some(150), Some(150), Bool(true))),
                   ("medium", Size(Some(300), Some(300), Bool(false))),
                   ("medium_large", Size(Some(768), Some(0), Bool(false))),
                   ("large", Size(Some(1024), Some(1024), Bool(false)))],
                  ["thumbnail", "medium"])
         == [("thumbnail", Size(Some(150), Some(150), Bool(true))),
             ("medium", Size(Some(300), Some(300), Bool(false)))]
  {
    var c := [("thumbnail", Size(Some(150), Some(150), Bool(true))),
                       ("medium", Size(Some(300), Some(300), Bool(false))),
                       ("medium_large", Size(Some(768), Some(0), Bool(false))),
                       ("large", Size(Some(1024), Some(1024), Bool(false)))];
    assert c[1..][1..][1..][1..] == [];
  }
}
