/**
 * The two REST callbacks of the `cumulus/v1/attachment/<id>` route
 * (cumulus.php:155-215): GET shapes a response from the stored record, POST
 * checks the request's nonce and merges the posted fields into the record.
 *
 * Nonces are parameters: `createNonce` stands for `wp_create_nonce` and
 * `verifyNonce` for `wp_verify_nonce`.
 */
module Rest {
  import opened PhpValues
  import opened Urls
  import opened Records

  /**
   * The `id` route parameter as the request carries it: the string the
   * pattern `\d++` matched, one or more decimal digits, leading zeros kept.
   */
  predicate RouteId(id: string) {
    id != [] && IsDigits(id)
  }

  /** The attachment the parameter names: `get_post_meta` reads it as an integer. */
  function AttachmentOf(id: string): (n: nat)
    requires RouteId(id)
    ensures NatToString(n) == id || id[0] == '0'
  {
    CanonicalDigits(id);
    DecimalValue(id)
  }

  /** A digit string without a leading zero, or the single digit `0`, is the notation of its value. */
  lemma {:induction false} CanonicalDigits(id: string)
    requires RouteId(id)
    ensures id[0] != '0' ==> NatToString(DecimalValue(id)) == id
    decreases |id|
  {
    if id[0] != '0' {
      var n := DecimalValue(id);
      var init := id[..|id| - 1];
      var d := id[|id| - 1] as int - '0' as int;
      if init == [] {
        assert DecimalValue(init) == 0;
        assert n == d;
        assert id == [id[0]];
      } else {
        assert init[0] == id[0];
        CanonicalDigits(init);
        var m := DecimalValue(init);
        assert n == m * 10 + d;
        assert n >= 10 by {
          assert m >= 1 by {
            NatToStringValue(m);
          }
        }
        assert n / 10 == m && n % 10 == d;
        assert NatToString(n) == NatToString(m) + [DigitChar(d)];
        assert id == init + [id[|id| - 1]];
      }
    }
  }

  /** The nonce action the callbacks use: `cumulus_attachment_` followed by the parameter as given. */
  function NonceAction(id: string): (action: string)
    ensures "cumulus_attachment_" <= action
    ensures action[|"cumulus_attachment_"|..] == id
  {
    "cumulus_attachment_" + id
  }

  /**
   * Two spellings of one attachment, `007` and `7`, read the same record but
   * have different nonce actions, so a nonce created for one does not serve
   * for the other.
   */
  lemma NonceFollowsSpelling()
    ensures RouteId("007") && RouteId("7")
    ensures AttachmentOf("007") == AttachmentOf("7") == 7
    ensures NonceAction("007") != NonceAction("7")
  {
    assert "007"[..2] == "00" && "00"[..1] == "0" && "0"[..0] == "";
    assert DecimalValue("00") == 0;
    assert "7"[..0] == "";
    assert NonceAction("007")[|"cumulus_attachment_"|..] == "007";
  }

  /** The GET response; `attachmentId` is the parameter as given. */
  datatype GetResponse =
    | NotUploaded(attachmentId: string)
    | Found(
        attachmentId: string,
        nonce: string,
        version: Value,
        filename: string,
        fullUrl: Value,
        fullWidth: Value,
        fullHeight: Value,
        paramsBySize: Value,
        urlsBySize: Value)

  /** `$meta[$key] ?? []`. */
  function OrEmpty(meta: Record, key: string): (v: Value)
    ensures key in meta && meta[key] != Null ==> v == meta[key]
    ensures key !in meta || meta[key] == Null ==> v == Arr(map[])
  {
    if key in meta && meta[key] != Null then meta[key] else Arr(map[])
  }

  /**
   * The GET callback (cumulus.php:157-186): `uploaded: false` when the
   * attachment has no (or an empty) record; otherwise a nonce for the
   * parameter as given, the upload's version, `public_id.format` file name,
   * full URL and dimensions read from `cloudinary_data` (null where missing),
   * and the saved params and URLs per size, `[]` where missing.
   */
  function RestGet(records: map<int, Record>, id: string, createNonce: string -> string): (r: GetResponse)
    requires RouteId(id)
    ensures r.attachmentId == id
    ensures r.NotUploaded? <==> MetaOf(records, AttachmentOf(id)) == map[]
    ensures r.Found? ==>
              var meta := MetaOf(records, AttachmentOf(id));
              var data := Get(meta, "cloudinary_data");
              && r.nonce == createNonce(NonceAction(id))
              && r.version == Index(data, "version")
              && r.filename == ToStr(Index(data, "public_id")) + "." + ToStr(Index(data, "format"))
              && r.fullUrl == Index(data, "secure_url")
              && r.fullWidth == Index(data, "width")
              && r.fullHeight == Index(data, "height")
              && r.paramsBySize == OrEmpty(meta, "params_by_size")
              && r.urlsBySize == OrEmpty(meta, "urls_by_size")
  {
    var meta := MetaOf(records, AttachmentOf(id));
    if meta == map[] then NotUploaded(id)
    else
      var data := Get(meta, "cloudinary_data");
      Found(
        id,
        createNonce(NonceAction(id)),
        Index(data, "version"),
        ToStr(Index(data, "public_id")) + "." + ToStr(Index(data, "format")),
        Index(data, "secure_url"),
        Index(data, "width"),
        Index(data, "height"),
        OrEmpty(meta, "params_by_size"),
        OrEmpty(meta, "urls_by_size"))
  }

  /**
   * After an upload, GET reports what the upload produced: the file name is
   * the result's `public_id.format`, the full URL its secure URL, and the
   * params and URLs per size those `save_uploaded` built.
   */
  lemma GetAfterUpload(records: map<int, Record>, id: string, cloud: string, sizes: seq<(string, Size)>, result: map<string, Value>, createNonce: string -> string)
    requires RouteId(id) && result != map[]
    ensures var r := RestGet(Saved(records, AttachmentOf(id), cloud, sizes, result), id, createNonce);
            && r.Found?
            && r.filename == ToStr(Get(result, "public_id")) + "." + ToStr(Get(result, "format"))
            && r.version == Get(result, "version")
            && r.fullUrl == Get(result, "secure_url")
            && r.fullWidth == Get(result, "width")
            && r.fullHeight == Get(result, "height")
            && r.paramsBySize == Arr(ParamsBySize(sizes))
            && r.urlsBySize == Arr(UrlsWithFull(cloud, sizes, result))
  {
    var rec := BuildRecord(cloud, sizes, result);
    assert "cloudinary_id" in rec;
  }

  /**
   * A record that only a crop edit wrote, before any upload, is reported as
   * uploaded: the per-size URLs default to `[]`, and with no upload data the
   * file name is just `.` and the full URL null.
   */
  lemma GetWithoutUpload(records: map<int, Record>, id: string, params: Value, createNonce: string -> string)
    requires RouteId(id) && params != Null
    ensures var r := RestGet(records[AttachmentOf(id) := map["params_by_size" := params]], id, createNonce);
            && r.Found?
            && r.paramsBySize == params
            && r.urlsBySize == Arr(map[])
            && r.filename == "."
            && r.fullUrl == Null
  {
    var meta := map["params_by_size" := params];
    assert "params_by_size" in meta;
    assert MetaOf(records[AttachmentOf(id) := meta], AttachmentOf(id)) == meta;
  }

  lemma FilenameAfterUpload(records: map<int, Record>, id: string, cloud: string, sizes: seq<(string, Size)>, result: map<string, Value>, createNonce: string -> string)
    requires RouteId(id) && result != map[]
    ensures var r := RestGet(Saved(records, AttachmentOf(id), cloud, sizes, result), id, createNonce);
            r.Found? && r.filename == ToStr(Get(result, "public_id")) + "." + ToStr(Get(result, "format"))
  {
    GetAfterUpload(records, id, cloud, sizes, result, createNonce);
  }

  /**
   * The file name GET reports is the tail of every default URL built for the
   * same upload: each size's URL ends in `/` followed by that file name.
   */
  lemma FilenameEndsEveryUrl(records: map<int, Record>, id: string, cloud: string, sizes: seq<(string, Size)>, result: map<string, Value>, createNonce: string -> string, size: Size)
    requires RouteId(id) && result != map[]
    ensures var r := RestGet(Saved(records, AttachmentOf(id), cloud, sizes, result), id, createNonce);
            r.Found? && DefaultUrl(cloud, size, result) == UploadPrefix(cloud) + Resize(size) + "/" + r.filename
  {
    FilenameAfterUpload(records, id, cloud, sizes, result, createNonce);
    var r := RestGet(Saved(records, AttachmentOf(id), cloud, sizes, result), id, createNonce);
    var pre := UploadPrefix(cloud) + Resize(size);
    var name := ToStr(Get(result, "public_id")) + "." + ToStr(Get(result, "format"));
    assert pre + ("/" + name) == pre + "/" + name;
  }

  /** The POST response. */
  datatype PostResponse =
    | Rejected
    | Accepted(config: Record)
    | PayloadTypeError

  /** `array_merge` applied the way the callback applies it: the stored record is `array_merge($meta, $config)`. */
  lemma MergeAbsorbs(meta: Record, payload: Record)
    ensures ArrayMerge(meta, ArrayMerge(meta, payload)) == ArrayMerge(meta, payload)
  {
    assert forall k :: k in ArrayMerge(meta, ArrayMerge(meta, payload)) <==> k in ArrayMerge(meta, payload);
  }

  /** What an accepted POST stores: the record with the posted fields merged over it. */
  function Posted(meta: Record, payload: Record): (r: Record)
    ensures r.Keys == meta.Keys + payload.Keys
    ensures forall k :: k in payload ==> r[k] == payload[k]
    ensures forall k :: k in meta && k !in payload ==> r[k] == meta[k]
  {
    ArrayMerge(meta, payload)
  }

  /**
   * The POST callback (cumulus.php:195-214): a request whose nonce does not
   * verify is rejected and writes nothing; a JSON body that is not an object
   * makes `array_merge` throw and writes nothing; otherwise the record becomes
   * the stored one with the posted fields merged over it, top level only.
   */
  method RestPost(store: MetaStore, id: string, nonce: string, payload: Value, verifyNonce: (string, string) -> bool)
    returns (r: PostResponse)
    requires RouteId(id)
    modifies store
    ensures !verifyNonce(nonce, NonceAction(id)) ==> r == Rejected && store.records == old(store.records)
    ensures verifyNonce(nonce, NonceAction(id)) && !payload.Arr? ==> r == PayloadTypeError && store.records == old(store.records)
    ensures verifyNonce(nonce, NonceAction(id)) && payload.Arr? ==>
              && r == Accepted(Posted(old(store.Meta(AttachmentOf(id))), payload.m))
              && store.records == old(store.records)[AttachmentOf(id) := Posted(old(store.Meta(AttachmentOf(id))), payload.m)]
  {
    if !verifyNonce(nonce, NonceAction(id)) {
      return Rejected;
    }
    var meta := store.Meta(AttachmentOf(id));
    if !payload.Arr? {
      return PayloadTypeError;
    }
    var config := ArrayMerge(meta, payload.m);
    MergeAbsorbs(meta, payload.m);
    store.Update(AttachmentOf(id), ArrayMerge(meta, config));
    r := Accepted(config);
  }

  /**
   * Editing crops through POST and reading them back through GET: the
   * posted `params_by_size` replaces the stored one wholesale, while the
   * stored URLs and upload data are kept when the payload leaves them out.
   */
  lemma GetAfterEdit(records: map<int, Record>, id: string, params: Value, createNonce: string -> string)
    requires RouteId(id) && MetaOf(records, AttachmentOf(id)) != map[] && params != Null
    ensures var meta := MetaOf(records, AttachmentOf(id));
            var r := RestGet(records[AttachmentOf(id) := Posted(meta, map["params_by_size" := params])], id, createNonce);
            var before := RestGet(records, id, createNonce);
            && r.Found? && before.Found?
            && r.paramsBySize == params
            && r.urlsBySize == before.urlsBySize
            && r.filename == before.filename
            && r.fullUrl == before.fullUrl
  {
  }

  /** A POST with an empty object stores the record unchanged. */
  lemma EmptyPostKeepsRecord(meta: Record)
    ensures Posted(meta, map[]) == meta
  {
  }
}
