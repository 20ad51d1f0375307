/**
 * The `cumulus_image` record kept in each attachment's post meta, how an
 * upload result becomes one (api.php `save_uploaded`), and the upload path
 * that produces it (api.php `should_upload`, `upload_attachment`, and the
 * `add_attachment` hook at cumulus.php:222-228).
 *
 * WordPress and Cloudinary are not modelled; what the core asks of them is
 * gathered in `Host`.
 */
module Records {
  import opened PhpValues
  import opened Urls
  import opened UploadOptions

  /** A stored record: the PHP array saved under the `cumulus_image` meta key. */
  type Record = map<string, Value>

  /**
   * An attachment's `cumulus_image` meta. A missing entry reads as the empty
   * array: `get_post_meta` gives `''`, which every reader treats like `[]`.
   */
  function MetaOf(records: map<int, Record>, id: int): (m: Record)
    ensures id in records ==> m == records[id]
    ensures id !in records ==> m == map[]
  {
    if id in records then records[id] else map[]
  }

  /** The `cumulus_image` post meta of every attachment. */
  class MetaStore {
    var records: map<int, Record>

    constructor (initial: map<int, Record>)
      ensures records == initial
    {
      records := initial;
    }

    /** `get_post_meta($id, 'cumulus_image', true)`, with `''` read as `[]`. */
    function Meta(id: int): Record
      reads this
    {
      MetaOf(records, id)
    }

    /** `update_post_meta($id, 'cumulus_image', $record)`. */
    method Update(id: int, record: Record)
      modifies this
      ensures records == old(records)[id := record]
    {
      records := records[id := record];
    }
  }

  /** The names of a list of sizes, as a set. */
  function NameSet(sizes: seq<(string, Size)>): set<string>
    decreases |sizes|
  {
    if sizes == [] then {} else NameSet(sizes[..|sizes| - 1]) + {sizes[|sizes| - 1].0}
  }

  /** A name is in `NameSet(sizes)` exactly when some size carries it. */
  lemma {:induction false} NameSetMembers(sizes: seq<(string, Size)>, name: string)
    ensures name in NameSet(sizes) <==> exists i :: 0 <= i < |sizes| && sizes[i].0 == name
    decreases |sizes|
  {
    if sizes != [] {
      var init := sizes[..|sizes| - 1];
      NameSetMembers(init, name);
      if name in NameSet(init) {
        var i :| 0 <= i < |init| && init[i].0 == name;
        assert sizes[i].0 == name;
      }
      if i :| 0 <= i < |sizes| && sizes[i].0 == name {
        if i < |init| {
          assert init[i].0 == name;
        }
      }
    }
  }

  /** Dropping the last size keeps the names distinct, and the last name is not among the others. */
  lemma DistinctNamesSnoc(sizes: seq<(string, Size)>)
    requires sizes != [] && DistinctNames(sizes)
    ensures DistinctNames(sizes[..|sizes| - 1])
    ensures forall i :: 0 <= i < |sizes| - 1 ==> sizes[i].0 != sizes[|sizes| - 1].0
  {
  }

  /** An array with one entry per size, keyed by the size's name, holding `f` of the size. */
  function Tabulate(sizes: seq<(string, Size)>, f: Size -> Value): map<string, Value>
    decreases |sizes|
  {
    if sizes == [] then map[]
    else
      var last := sizes[|sizes| - 1];
      Tabulate(sizes[..|sizes| - 1], f)[last.0 := f(last.1)]
  }

  /** The keys of the table are the names of the sizes. */
  lemma {:induction false} TabulateKeys(sizes: seq<(string, Size)>, f: Size -> Value)
    ensures Tabulate(sizes, f).Keys == NameSet(sizes)
    decreases |sizes|
  {
    if sizes != [] {
      TabulateKeys(sizes[..|sizes| - 1], f);
    }
  }

  /** With distinct names, every size's entry is `f` of that size. */
  lemma {:induction false} TabulateValues(sizes: seq<(string, Size)>, f: Size -> Value)
    requires DistinctNames(sizes)
    ensures forall i :: 0 <= i < |sizes| ==> sizes[i].0 in Tabulate(sizes, f) && Tabulate(sizes, f)[sizes[i].0] == f(sizes[i].1)
    decreases |sizes|
  {
    if sizes != [] {
      var init := sizes[..|sizes| - 1];
      var last := sizes[|sizes| - 1];
      DistinctNamesSnoc(sizes);
      TabulateValues(init, f);
      var m := Tabulate(sizes, f);
      assert m == Tabulate(init, f)[last.0 := f(last.1)];
      forall i | 0 <= i < |sizes|
        ensures sizes[i].0 in m && m[sizes[i].0] == f(sizes[i].1)
      {
        if i < |init| {
          assert init[i] == sizes[i];
        }
      }
    }
  }

  /** The URL `urls_by_size` holds for one size. */
  function SizeUrl(cloud: string, result: map<string, Value>): Size -> Value {
    size => Str(DefaultUrl(cloud, size, result))
  }

  /**
   * The `array_reduce` that builds `urls_by_size` (api.php:117-132): one
   * entry per size, holding the size's default URL. The `crop_url` filter is
   * the identity here.
   */
  function UrlsBySize(cloud: string, sizes: seq<(string, Size)>, result: map<string, Value>): (r: map<string, Value>)
    ensures r.Keys == NameSet(sizes)
  {
    TabulateKeys(sizes, SizeUrl(cloud, result));
    Tabulate(sizes, SizeUrl(cloud, result))
  }

  /** Every managed size maps to its own default URL. */
  lemma UrlsBySizeValues(cloud: string, sizes: seq<(string, Size)>, result: map<string, Value>)
    requires DistinctNames(sizes)
    ensures forall i :: 0 <= i < |sizes| ==>
              sizes[i].0 in UrlsBySize(cloud, sizes, result) &&
              UrlsBySize(cloud, sizes, result)[sizes[i].0] == Str(DefaultUrl(cloud, sizes[i].1, result))
  {
    TabulateValues(sizes, SizeUrl(cloud, result));
  }

  /** What `params_by_size` holds for every size after an upload. */
  const ScaleParams: Value := Arr(map["edit_mode" := Str("scale")])

  /** The `array_reduce` that builds `params_by_size` (api.php:137-144). */
  function ParamsBySize(sizes: seq<(string, Size)>): (r: map<string, Value>)
    ensures r.Keys == NameSet(sizes)
    ensures forall name :: name in r ==> r[name] == ScaleParams
    decreases |sizes|
  {
    if sizes == [] then map[]
    else
      ParamsBySize(sizes[..|sizes| - 1])[sizes[|sizes| - 1].0 := ScaleParams]
  }

  /** `urls_by_size` with the full-size URL added under `full` (api.php:134-135). */
  function UrlsWithFull(cloud: string, sizes: seq<(string, Size)>, result: map<string, Value>): (urls: map<string, Value>)
    ensures urls.Keys == NameSet(sizes) + {"full"}
    ensures urls["full"] == Get(result, "secure_url")
  {
    UrlsBySize(cloud, sizes, result)["full" := Get(result, "secure_url")]
  }

  /**
   * After an upload, `urls_by_size` holds exactly the managed sizes and
   * `full`; `full` is the result's secure URL and every other size its
   * default URL. A registered size named `full` is overwritten.
   */
  lemma UrlsWithFullValues(cloud: string, sizes: seq<(string, Size)>, result: map<string, Value>)
    requires DistinctNames(sizes)
    ensures forall i :: 0 <= i < |sizes| && sizes[i].0 != "full" ==>
              sizes[i].0 in UrlsWithFull(cloud, sizes, result) &&
              UrlsWithFull(cloud, sizes, result)[sizes[i].0] == Str(DefaultUrl(cloud, sizes[i].1, result))
  {
    UrlsBySizeValues(cloud, sizes, result);
  }

  /**
   * The record `save_uploaded` stores for a non-empty upload result
   * (api.php:115-151): the default URL of every managed size plus `full`,
   * `scale` params for every size, the public ID and the raw result.
   */
  function BuildRecord(cloud: string, sizes: seq<(string, Size)>, result: map<string, Value>): (rec: Record)
    ensures rec.Keys == {"cloudinary_id", "urls_by_size", "params_by_size", "cloudinary_data"}
    ensures rec["cloudinary_id"] == Get(result, "public_id")
    ensures rec["cloudinary_data"] == Arr(result)
    ensures rec["urls_by_size"] == Arr(UrlsWithFull(cloud, sizes, result))
    ensures rec["params_by_size"] == Arr(ParamsBySize(sizes))
  {
    map["cloudinary_id" := Get(result, "public_id"),
        "urls_by_size" := Arr(UrlsWithFull(cloud, sizes, result)),
        "params_by_size" := Arr(ParamsBySize(sizes)),
        "cloudinary_data" := Arr(result)]
  }

  /** The records after `save_uploaded($id, $result)`. */
  function Saved(records: map<int, Record>, id: int, cloud: string, sizes: seq<(string, Size)>, result: map<string, Value>): map<int, Record> {
    if result == map[] then records else records[id := BuildRecord(cloud, sizes, result)]
  }

  /**
   * `save_uploaded` (api.php:110-152): an empty result writes nothing;
   * otherwise the attachment's record is replaced wholesale.
   */
  method SaveUploaded(store: MetaStore, id: int, cloud: string, sizes: seq<(string, Size)>, result: map<string, Value>)
    modifies store
    ensures store.records == Saved(old(store.records), id, cloud, sizes, result)
  {
    if result == map[] {
      return;
    }
    store.Update(id, BuildRecord(cloud, sizes, result));
  }

  /**
   * Saving replaces the record wholesale: whatever was stored before, the
   * new record is determined by the result alone, so no size from an older
   * record survives; other attachments keep their records.
   */
  lemma SavedReplacesWholesale(records1: map<int, Record>, records2: map<int, Record>, id: int, cloud: string, sizes: seq<(string, Size)>, result: map<string, Value>)
    requires result != map[]
    ensures Saved(records1, id, cloud, sizes, result)[id] == Saved(records2, id, cloud, sizes, result)[id]
    ensures forall other :: other != id ==>
              (other in Saved(records1, id, cloud, sizes, result) <==> other in records1) &&
              (other in records1 ==> Saved(records1, id, cloud, sizes, result)[other] == records1[other])
  {
  }

  /**
   * The outcome of the Cloudinary upload call: a result, an SDK `ApiError`,
   * or the standard library's `\InvalidArgumentException`.
   */
  datatype UploadOutcome =
    | Uploaded(result: map<string, Value>)
    | ApiError(message: string)
    | InvalidArgument(message: string)

  /**
   * What the core asks of WordPress and Cloudinary: the cloud name and folder
   * settings, the registered size catalog with the `cumulus/sizes`
   * allow-list, each attachment's file path, the MIME type detected for each
   * path (absent when detection fails), the MIME types to upload, and the
   * upload call.
   */
  datatype Host = Host(
    cloud: string,
    folder: string,
    catalog: Catalog,
    allow: seq<string>,
    files: map<int, string>,
    mimeTypes: map<string, string>,
    supportedTypes: seq<string>,
    upload: (string, map<string, Value>) -> UploadOutcome)

  /** `get_attached_file($id)`: the path, or a falsy value when there is none. */
  function AttachedFile(host: Host, id: int): string {
    if id in host.files then host.files[id] else ""
  }

  /** The managed sizes, `sizes()`. */
  function ManagedSizes(host: Host): seq<(string, Size)> {
    Sizes(host.catalog, host.allow)
  }

  /**
   * `in_array($mime, $types)` with PHP's loose comparison: a failed detection
   * (`false`) equals `""` and `"0"`; a detected type equals itself.
   */
  predicate MimeListed(mime: Option<string>, types: seq<string>) {
    exists i :: 0 <= i < |types| && (if mime.Some? then types[i] == mime.value else !TruthyString(types[i]))
  }

  /** `mime_content_type($path)`: `None` for `false`. */
  function MimeOf(host: Host, path: string): Option<string> {
    if path in host.mimeTypes then Some(host.mimeTypes[path]) else None
  }

  /** `should_upload($id)` (api.php:62-74). */
  function ShouldUpload(host: Host, id: int): (r: bool)
    ensures r <==> TruthyString(AttachedFile(host, id)) && MimeListed(MimeOf(host, AttachedFile(host, id)), host.supportedTypes)
  {
    var path := AttachedFile(host, id);
    if !TruthyString(path) then false
    else MimeListed(MimeOf(host, path), host.supportedTypes)
  }

  /** A path with its trailing slashes removed, and nothing else. */
  function TrimSlashes(path: string): (r: string)
    ensures r <= path
    ensures r == [] || r[|r| - 1] != '/'
    ensures forall i :: |r| <= i < |path| ==> path[i] == '/'
    ensures path == [] || path[|path| - 1] != '/' ==> r == path
    decreases |path|
  {
    if path != [] && path[|path| - 1] == '/' then TrimSlashes(path[..|path| - 1]) else path
  }

  /** The part of `s` after its last slash, or all of `s` without one. */
  function AfterLastSlash(s: string): (r: string)
    ensures '/' !in r
    decreases |s|
  {
    if s == [] then []
    else if s[|s| - 1] == '/' then []
    else AfterLastSlash(s[..|s| - 1]) + [s[|s| - 1]]
  }

  /** The part kept is the longest slash-free tail of `s`: a suffix of `s` preceded by a slash, or all of `s`. */
  lemma {:induction false} AfterLastSlashIsLastComponent(s: string)
    ensures var r := AfterLastSlash(s);
            && |r| <= |s| && r == s[|s| - |r|..]
            && (|r| < |s| ==> s[|s| - |r| - 1] == '/')
    decreases |s|
  {
    if s != [] && s[|s| - 1] != '/' {
      var init := s[..|s| - 1];
      AfterLastSlashIsLastComponent(init);
      var t := AfterLastSlash(init);
      assert AfterLastSlash(s) == t + [s[|s| - 1]];
      assert init[|init| - |t|..] + [s[|s| - 1]] == s[|s| - |t| - 1..];
    }
  }

  /** PHP `basename($path)` on `/`-separated paths: the last component. */
  function Basename(path: string): (r: string)
    ensures '/' !in r
  {
    AfterLastSlash(TrimSlashes(path))
  }

  lemma {:induction false} AfterLastSlashAppend(dir: string, name: string)
    requires '/' !in name
    ensures AfterLastSlash(dir + "/" + name) == name
    decreases |name|
  {
    var s := dir + "/" + name;
    if name == [] {
      assert s[|s| - 1] == '/';
    } else {
      var init := name[..|name| - 1];
      assert s[..|s| - 1] == dir + "/" + init;
      assert '/' !in init by {
        assert forall c :: c in init ==> c in name;
      }
      AfterLastSlashAppend(dir, init);
      assert init + [name[|name| - 1]] == name;
    }
  }

  /** The base name of `dir/name` is `name`, for a name without slashes, and trailing slashes do not count. */
  lemma BasenameOfPath(dir: string, name: string, trailing: nat)
    requires '/' !in name && name != []
    ensures Basename(dir + "/" + name + seq(trailing, _ => '/')) == name
  {
    TrimSlashesAppend(dir + "/" + name, trailing);
    AfterLastSlashAppend(dir, name);
  }

  lemma {:induction false} TrimSlashesAppend(s: string, trailing: nat)
    requires s != [] && s[|s| - 1] != '/'
    ensures TrimSlashes(s + seq(trailing, _ => '/')) == s
    decreases trailing
  {
    var t := s + seq(trailing, _ => '/');
    if trailing == 0 {
      assert t == s;
    } else {
      assert t[..|t| - 1] == s + seq(trailing - 1, _ => '/');
      TrimSlashesAppend(s, trailing - 1);
    }
  }

  /** The options `upload_attachment` passes to the upload call, after the `cumulus/upload_options` filter. */
  function UploadOptionsFor(host: Host, path: string): (options: map<string, Value>)
    ensures options.Keys == {"public_id", "folder"}
    ensures options["public_id"] == Str(PublicId(Basename(path), host.folder))
    ensures options["folder"] == Str(host.folder)
  {
    RewrittenOptions(map["public_id" := Str(Basename(path)), "folder" := Str(host.folder)], host.folder)
  }

  /** What the upload call returns for a path. */
  function UploadCall(host: Host, path: string): UploadOutcome {
    host.upload(path, UploadOptionsFor(host, path))
  }

  /**
   * The (array) result `upload_attachment` saves: the upload result, or `[]`
   * when the call threw. An `\InvalidArgumentException` never reaches the
   * save as written (see `Escapes`); either way nothing is written for it.
   */
  function UploadResult(host: Host, path: string): (result: map<string, Value>)
    ensures UploadCall(host, path).Uploaded? ==> result == UploadCall(host, path).result
    ensures !UploadCall(host, path).Uploaded? ==> result == map[]
  {
    match UploadCall(host, path)
    case Uploaded(result) => result
    case ApiError(_) => map[]
    case InvalidArgument(_) => map[]
  }

  /**
   * Whether `upload_attachment($id)` lets an exception out: the file calls
   * the upload and it throws `\InvalidArgumentException`. api.php sits in the
   * `SiteCrafting\Cumulus` namespace without importing that class, so its
   * second `catch` (api.php:179) names `SiteCrafting\Cumulus\InvalidArgumentException`
   * and does not catch the standard one.
   */
  predicate Escapes(host: Host, id: int) {
    var path := AttachedFile(host, id);
    TruthyString(path) && UploadCall(host, path).InvalidArgument?
  }

  /** The records after `upload_attachment($id)`, whether it returns or throws. */
  function AfterUpload(records: map<int, Record>, host: Host, id: int): map<int, Record> {
    var path := AttachedFile(host, id);
    if !TruthyString(path) then records
    else Saved(records, id, host.cloud, ManagedSizes(host), UploadResult(host, path))
  }

  /** How a call ends: it returns, with the message passed to `cumulus/api_error` if one was, or an exception escapes it. */
  datatype Completion =
    | Returned(reported: Option<string>)
    | Threw(message: string)

  /**
   * `upload_attachment($id)` (api.php:159-187) as written: an `ApiError` is
   * reported and `[]` saved; an `\InvalidArgumentException` escapes before
   * anything is saved.
   */
  method UploadAttachment(store: MetaStore, host: Host, id: int) returns (c: Completion)
    modifies store
    ensures store.records == AfterUpload(old(store.records), host, id)
    ensures c.Threw? <==> Escapes(host, id)
    ensures c.Threw? ==> c.message == UploadCall(host, AttachedFile(host, id)).message
    ensures c.Returned? ==> (c.reported.Some? <==> TruthyString(AttachedFile(host, id)) && UploadCall(host, AttachedFile(host, id)).ApiError?)
  {
    var path := AttachedFile(host, id);
    if !TruthyString(path) {
      return Returned(None);
    }
    var result: map<string, Value> := map[];
    var reported := None;
    var options := RewriteOptions(map["public_id" := Str(Basename(path)), "folder" := Str(host.folder)], host.folder);
    assert options == UploadOptionsFor(host, path);
    match host.upload(path, options) {
      case Uploaded(r) => result := r;
      case ApiError(message) => reported := Some(message);
      case InvalidArgument(message) => return Threw(message);
    }
    SaveUploaded(store, id, host.cloud, ManagedSizes(host), result);
    c := Returned(reported);
  }

  /**
   * `upload_attachment($id)` with the second `catch` naming the standard
   * `\InvalidArgumentException`, as evidently intended: it always returns,
   * and reports the message of either exception.
   */
  method UploadAttachmentIntended(store: MetaStore, host: Host, id: int) returns (reported: Option<string>)
    modifies store
    ensures store.records == AfterUpload(old(store.records), host, id)
    ensures reported.Some? <==> TruthyString(AttachedFile(host, id)) && !UploadCall(host, AttachedFile(host, id)).Uploaded?
    ensures reported.Some? ==> reported.value == UploadCall(host, AttachedFile(host, id)).message
  {
    var path := AttachedFile(host, id);
    if !TruthyString(path) {
      return None;
    }
    var result: map<string, Value> := map[];
    reported := None;
    var options := RewriteOptions(map["public_id" := Str(Basename(path)), "folder" := Str(host.folder)], host.folder);
    assert options == UploadOptionsFor(host, path);
    match host.upload(path, options) {
      case Uploaded(r) => result := r;
      case ApiError(message) => reported := Some(message);
      case InvalidArgument(message) => reported := Some(message);
    }
    SaveUploaded(store, id, host.cloud, ManagedSizes(host), result);
  }

  /**
   * The `add_attachment` hook (cumulus.php:222-228): upload only what
   * `should_upload` accepts; an exception escaping the upload escapes the hook.
   */
  method OnAddAttachment(store: MetaStore, host: Host, id: int) returns (c: Completion)
    modifies store
    ensures store.records == if ShouldUpload(host, id) then AfterUpload(old(store.records), host, id) else old(store.records)
    ensures c.Threw? <==> ShouldUpload(host, id) && Escapes(host, id)
  {
    if !ShouldUpload(host, id) {
      return Returned(None);
    }
    c := UploadAttachment(store, host, id);
  }

  /** An upload that throws writes nothing, whether the exception is caught or escapes. */
  lemma FailedUploadWritesNothing(records: map<int, Record>, host: Host, id: int)
    requires !UploadCall(host, AttachedFile(host, id)).Uploaded?
    ensures AfterUpload(records, host, id) == records
  {
  }

  /** An attachment without a file is never uploaded and nothing is written. */
  lemma NoFileWritesNothing(records: map<int, Record>, host: Host, id: int)
    requires !TruthyString(AttachedFile(host, id))
    ensures !ShouldUpload(host, id)
    ensures AfterUpload(records, host, id) == records
  {
  }

  /**
   * A successful upload stores the record built from its result, under the
   * attachment's own ID and no other; its `cloudinary_id` is the result's
   * public ID and `urls_by_size` covers exactly the managed sizes and `full`.
   */
  lemma SuccessfulUploadRecord(records: map<int, Record>, host: Host, id: int)
    requires TruthyString(AttachedFile(host, id))
    requires UploadCall(host, AttachedFile(host, id)).Uploaded?
    requires UploadCall(host, AttachedFile(host, id)).result != map[]
    ensures var result := UploadCall(host, AttachedFile(host, id)).result;
            var after := AfterUpload(records, host, id);
            && id in after
            && after[id] == BuildRecord(host.cloud, ManagedSizes(host), result)
            && after[id]["cloudinary_id"] == Get(result, "public_id")
            && after[id]["urls_by_size"].m.Keys == NameSet(ManagedSizes(host)) + {"full"}
            && (forall other :: other != id ==> (other in after <==> other in records))
  {
  }

  /** Uploading one attachment leaves every other attachment's record alone. */
  lemma UploadTouchesOnlyItsId(records: map<int, Record>, host: Host, id: int, other: int)
    requires other != id
    ensures var after := AfterUpload(records, host, id);
            (other in after <==> other in records) && (other in records ==> after[other] == records[other])
  {
  }

  /** The upload is asked for the file's base name, stripped of its image extension, under the folder. */
  lemma UploadAsksForPublicId(host: Host, dir: string)
    requires host.folder == "test"
    ensures UploadOptionsFor(host, dir + "/cat.jpg")["public_id"] == Str("test/cat")
  {
    var name := "cat.jpg";
    assert dir + "/cat.jpg" == dir + "/" + name + seq(0, _ => '/');
    BasenameOfPath(dir, name, 0);
    assert name == "cat" + ".jpg";
    StripExtensionsJpg("cat");
    assert StripSuffix("cat", ".png") == "cat";
  }

}
