/**
 * The `wp_get_attachment_image_src` filter (cumulus.php:128-147): it swaps
 * the image URL for the one stored for the requested size, reading each
 * attachment's record at most once per request.
 */
module SrcFilter {
  import opened PhpValues
  import opened Urls
  import opened Records

  /** The `[url, width, height, is_intermediate]` array WordPress filters. */
  datatype ImageSrc = ImageSrc(url: Value, width: Value, height: Value, intermediate: Value)

  /** `$config[$group][$size]`, when set. */
  function StoredUrl(config: Record, group: string, size: string): (r: Option<Value>)
    ensures r.Some? <==> group in config && config[group].Arr? && size in config[group].m && config[group].m[size] != Null
    ensures r.Some? ==> r.value == config[group].m[size]
  {
    assert [group, size][1..] == [size] && [size][1..] == [];
    Dig(Arr(config), [group, size])
  }

  /**
   * The src after the two lookups (cumulus.php:141-144): a legacy
   * `sizes[size]` entry wins, then `urls_by_size[size]`; without either the
   * original URL stays. Only the URL changes.
   */
  function RewrittenSrc(src: ImageSrc, config: Record, size: string): (r: ImageSrc)
    ensures r.width == src.width && r.height == src.height && r.intermediate == src.intermediate
    ensures StoredUrl(config, "sizes", size).Some? ==> r.url == StoredUrl(config, "sizes", size).value
    ensures StoredUrl(config, "sizes", size).None? && StoredUrl(config, "urls_by_size", size).Some? ==>
              r.url == StoredUrl(config, "urls_by_size", size).value
    ensures StoredUrl(config, "sizes", size).None? && StoredUrl(config, "urls_by_size", size).None? ==> r.url == src.url
  {
    var url := Coalesce(StoredUrl(config, "urls_by_size", size), src.url);
    var url' := Coalesce(StoredUrl(config, "sizes", size), url);
    src.(url := url')
  }

  /**
   * The filter with its request-lifetime cache `configsById`. `metaReads`
   * records, in order, every attachment whose meta the filter has read.
   */
  class SrcFilter {
    var configsById: map<int, Record>
    ghost var metaReads: seq<int>

    /** Meta is read exactly for the cached attachments, once each. */
    ghost predicate Valid()
      reads this
    {
      && (forall id :: id in configsById <==> id in metaReads)
      && (forall i, j :: 0 <= i < j < |metaReads| ==> metaReads[i] != metaReads[j])
    }

    constructor ()
      ensures Valid()
      ensures configsById == map[] && metaReads == []
    {
      configsById := map[];
      metaReads := [];
    }

    /** The cache agrees with the store: nothing was written since it was filled. */
    ghost predicate Coherent(store: MetaStore)
      reads this, store
    {
      forall id :: id in configsById ==> configsById[id] == store.Meta(id)
    }

    /**
     * One call of the filter. An attachment seen before is answered from the
     * cache; otherwise its meta is read and cached, `[]` when it has none.
     */
    method Apply(store: MetaStore, src: ImageSrc, id: int, size: string) returns (r: ImageSrc)
      requires Valid()
      modifies this
      ensures Valid()
      ensures id in old(configsById) ==> configsById == old(configsById) && metaReads == old(metaReads)
      ensures id !in old(configsById) ==>
                configsById == old(configsById)[id := store.Meta(id)] && metaReads == old(metaReads) + [id]
      ensures r == RewrittenSrc(src, configsById[id], size)
      ensures old(Coherent(store)) ==> Coherent(store)
    {
      if id !in configsById {
        configsById := configsById[id := store.Meta(id)];
        metaReads := metaReads + [id];
      }
      r := RewrittenSrc(src, configsById[id], size);
    }
  }

  /**
   * Two calls for the same attachment read its meta once, and while the store
   * is unchanged both answer as the store's record says.
   */
  method ApplyTwice(store: MetaStore, src1: ImageSrc, src2: ImageSrc, id: int, size1: string, size2: string)
    returns (r1: ImageSrc, r2: ImageSrc, ghost readIds: seq<int>)
    ensures readIds == [id]
    ensures r1 == RewrittenSrc(src1, store.Meta(id), size1)
    ensures r2 == RewrittenSrc(src2, store.Meta(id), size2)
  {
    var filter := new SrcFilter();
    r1 := filter.Apply(store, src1, id, size1);
    r2 := filter.Apply(store, src2, id, size2);
    readIds := filter.metaReads;
  }

  /** Without a record, the src comes back unchanged (test/integration/UrlTest.php:27-41). */
  lemma NoRecordKeepsSrc(src: ImageSrc, size: string)
    ensures RewrittenSrc(src, map[], size) == src
  {
  }

  /**
   * With a stored `urls_by_size` entry for the size, the URL is replaced and
   * the rest kept (test/integration/UrlTest.php:43-64).
   */
  lemma StoredUrlReplacesSrc(config: Record, src: ImageSrc)
    requires config == map["urls_by_size" := Arr(map[
               "thumbnail" := Str("https://res.cloudinary.com/test/w_150,h_150/image.jpg"),
               "full" := Str("https://res.cloudinary.com/test/image.jpg")])]
    requires src == ImageSrc(Str("/path/to/image.jpg"), Int(500), Int(500), Bool(true))
    ensures RewrittenSrc(src, config, "thumbnail")
         == ImageSrc(Str("https://res.cloudinary.com/test/w_150,h_150/image.jpg"), Int(500), Int(500), Bool(true))
  {
    assert ["urls_by_size", "thumbnail"][1..] == ["thumbnail"];
    assert ["sizes", "thumbnail"][0] == "sizes";
  }

  /** Without a legacy `sizes` group, a set `urls_by_size` entry is what the src gets. */
  lemma UrlsBySizeServed(src: ImageSrc, config: Record, size: string)
    requires "sizes" !in config && "urls_by_size" in config && config["urls_by_size"].Arr?
    requires size in config["urls_by_size"].m && config["urls_by_size"].m[size] != Null
    ensures RewrittenSrc(src, config, size).url == config["urls_by_size"].m[size]
  {
    var group := config["urls_by_size"];
    assert ["urls_by_size", size][1..] == [size] && [size][1..] == [];
    assert Dig(group, [size]) == Dig(group.m[size], []);
    assert StoredUrl(config, "urls_by_size", size) == Dig(group, [size]);
    assert StoredUrl(config, "sizes", size).None?;
  }

  lemma RecordUrl(cloud: string, sizes: seq<(string, Size)>, result: map<string, Value>, i: nat)
    requires DistinctNames(sizes) && i < |sizes| && sizes[i].0 != "full"
    ensures var rec := BuildRecord(cloud, sizes, result);
            && "sizes" !in rec && "urls_by_size" in rec && rec["urls_by_size"].Arr?
            && sizes[i].0 in rec["urls_by_size"].m
            && rec["urls_by_size"].m[sizes[i].0] == Str(DefaultUrl(cloud, sizes[i].1, result))
  {
    var urls := UrlsWithFull(cloud, sizes, result);
    UrlsWithFullValues(cloud, sizes, result);
    assert BuildRecord(cloud, sizes, result)["urls_by_size"] == Arr(urls);
  }

  /** A record saved by an upload serves each managed size's default URL for that size. */
  lemma UploadedRecordServesDefaultUrl(cloud: string, sizes: seq<(string, Size)>, result: map<string, Value>, src: ImageSrc, i: nat)
    requires DistinctNames(sizes) && i < |sizes| && sizes[i].0 != "full"
    ensures RewrittenSrc(src, BuildRecord(cloud, sizes, result), sizes[i].0).url == Str(DefaultUrl(cloud, sizes[i].1, result))
  {
    RecordUrl(cloud, sizes, result, i);
    UrlsBySizeServed(src, BuildRecord(cloud, sizes, result), sizes[i].0);
  }
}
