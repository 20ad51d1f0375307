# Cumulus, modelled in Dafny

Cumulus is a WordPress plugin. It uploads image attachments to Cloudinary and serves Cloudinary URLs in place of the local ones. This project models its bookkeeping and proves properties about it:

- **Default URL and managed sizes.** The default scale URL of an image size (`default_url`). The catalog of managed sizes (`sizes`).
- **The `cumulus_image` record.** `save_uploaded` builds this record from an upload result. `upload_attachment` and the `add_attachment` hook produce it.
- **Upload options.** The `cumulus/upload_options` filter derives the Cloudinary public ID from the file name.
- **Settings.** The `cumulus/settings` fallback chain: passed-in value, database default (memoised per request), PHP constant, environment variable. Also the getters built on it.
- **Image src filter.** `wp_get_attachment_image_src` swaps a stored URL into the image src. It caches records per request.
- **REST endpoint.** The GET and POST callbacks of `cumulus/v1/attachment/<id>`.
- **Bulk upload.** The `wp cumulus bulk-upload` command: selection, `--count`, `--force`, `--dry-run`, `--porcelain` and `--summarize`.

Modules:

| file | module | what |
|---|---|---|
| `php_values.dfy` | `PhpValues` | PHP values and the built-ins the plugin relies on: truthiness, `??`, string conversion, `implode`, `array_merge` |
| `urls.dfy` | `Urls` | `default_url` and `sizes` |
| `upload_options.dfy` | `UploadOptions` | the `cumulus/upload_options` filter |
| `records.dfy` | `Records` | the meta store, `save_uploaded`, `should_upload`, `upload_attachment`, `add_attachment` |
| `settings.dfy` | `Settings` | the settings filter, its defaults memo, the getters |
| `src_filter.dfy` | `SrcFilter` | the image src filter and its per-request cache |
| `rest.dfy` | `Rest` | the REST GET and POST callbacks |
| `bulk_upload.dfy` | `BulkUpload` | `check_should_upload` and `bulk_upload` |

How the PHP is represented:
- PHP arrays with string keys are maps.
- Where order matters, the model uses sequences: the size catalog, and lists of attachment IDs.
- Code that updates state in place becomes a class:
  - the post meta store, `Records.MetaStore`;
  - the defaults memo, `Settings.DefaultsCache`;
  - the src filter's `$configsById` cache, `SrcFilter.SrcFilter`.

How WordPress and Cloudinary enter the model:
- The model takes them as parameters: options, constants, `$_ENV`, attached files, MIME detection, nonces and the upload call.
- `Records.Host` gathers what the upload path needs.

## Model

| member | source | states |
|---|---|---|
| PhpValues.Get | api.php:34 | `$a[$k] ?? null`: a missing key reads as null, a present one as its value |
| PhpValues.Truthy | cumulus.php:72-98 | what `if ($v)` accepts: all values but null, false, 0, `""`, `"0"` and `[]`; no contract of its own, it is the reference the other members are stated against |
| PhpValues.Empty | cumulus.php:72-98 | `empty()` is exactly the negation of `Truthy`; no contract of its own |
| PhpValues.Index | cumulus.php:175-180 | reading a key of a non-array, or a missing key, gives null; otherwise the stored value |
| PhpValues.Dig | cumulus.php:142-144 | `isset` on a key path: an empty path gives the value unless it is null; a longer path gives a value exactly when the first key is in an array and the rest of the path gives a value, and then that value; never null |
| PhpValues.Coalesce | cumulus.php:142-144 | `??` takes the found value, else the default |
| PhpValues.IntToString | api.php:81-82 | decimal notation: non-empty, digits and a sign only, leading `-` exactly for negatives |
| PhpValues.NatToString | api.php:81-82 | the digits of a natural number: non-empty, decimal digits only, one digit exactly below 10 |
| PhpValues.NatToStringValue | api.php:81-82 | reading the digits back gives the number, and only 0 is written with a leading zero |
| PhpValues.IntToStringValue | api.php:81-82 | the digits after an optional `-` read back as the magnitude of the integer, without a leading zero unless it is 0 |
| PhpValues.DecimalValue | cumulus.php:155-160 | the integer a route parameter of decimal digits reads as, leading zeros ignored; no contract of its own, stated by `NatToStringValue`, `Rest.AttachmentOf` and `Rest.CanonicalDigits` |
| PhpValues.ToStr | cumulus.php:177 | string conversion keeps strings, and turns null and false into `""` |
| PhpValues.Implode | api.php:80-84 | `implode` of no parts is `""`, of one part that part |
| PhpValues.SplitImplode | api.php:80-84 | splitting the comma-joined parts at commas gives the parts back when none holds a comma |
| PhpValues.ArrayMerge | cumulus.php:206 | `array_merge`: the union of the keys; the right-hand array wins on shared keys, and the left-hand values stay elsewhere |
| Urls.Names | api.php:99 | `array_keys` of the catalog: the names in order |
| Urls.FilterTruthy | api.php:80-84 | `array_filter` keeps only truthy strings, all taken from the input |
| Urls.FilterTruthyKeepsTruthy | api.php:80-84 | every truthy string of the input survives `array_filter` |
| Urls.FilterTruthyAppend | api.php:80-84 | `array_filter` keeps the input order: filtering a concatenation concatenates the filtered halves |
| Urls.Resize | api.php:77-84 | the resize segment; no contract of its own, its meaning is stated by `ResizeFilters`, `ResizeParts`, `ResizeOmitsMissing` and `ResizeBoth` |
| Urls.ScaleParts | api.php:80-84 | the non-empty entries of the list: `w_<width>` and `h_<height>` for the truthy dimensions, then `c_lfill`; no contract of its own, stated by `ResizeFilters`, `ResizeParts` and `ResizeOmitsMissing` |
| Urls.UploadPrefix | api.php:86-88 | `https://res.cloudinary.com/{cloud}/image/upload/`; no contract of its own, stated by `DefaultUrlShape` |
| Urls.AssetTail | api.php:86-92 | `/{public_id}.{format}`; no contract of its own, stated by `DefaultUrlShape` and `Rest.FilenameEndsEveryUrl` |
| Urls.DefaultUrl | api.php:76-93 | `default_url`: prefix, resize segment and asset tail; no contract of its own, stated by `DefaultUrlShape` and `DefaultUrlExample` |
| Urls.ResizeFilters | api.php:80-84 | the filtered part list is exactly the parts for given dimensions plus `c_lfill` |
| Urls.ResizeParts | api.php:77-84 | the segment splits into `w_<width>` when the width is given, `h_<height>` when the height is given, then `c_lfill`, with no empty part |
| Urls.ResizeOmitsMissing | api.php:77-84 | a zero or missing width gives no `w_` part; likewise for the height |
| Urls.ResizeBoth | api.php:80-84 | with both dimensions given, the segment is `w_<w>,h_<h>,c_lfill` |
| Urls.DefaultUrlShape | api.php:86-92 | every default URL starts with `https://res.cloudinary.com/{cloud}/image/upload/`, ends with `/{public_id}.{format}`, and holds the scale parts in between |
| Urls.DefaultUrlExample | test/integration/ApiTest.php:18-32 | the test's URL for `my-cloud`, 150×150 and `test/cat.jpg` |
| Urls.ResizeExample | test/integration/ApiTest.php:23-29 | a 150×150 size gives the segment `w_150,h_150,c_lfill` |
| Urls.Sizes | api.php:95-101 | an entry is managed exactly when it is in the catalog and its name is allowed; distinct names stay distinct |
| Urls.SizesAppend | api.php:95-101 | catalog order is kept: filtering a concatenation concatenates the filtered parts |
| Urls.SizesAllAllowed | api.php:95-101 | when every name is allowed, the catalog comes back unchanged |
| Urls.SizesDefault | test/integration/ApiTest.php:34-36 | with the default allow-list, `array_keys($sizes)` (api.php:99), the managed sizes are the whole catalog |
| Urls.SizesIdempotent | api.php:95-101 | filtering twice with the same allow-list equals filtering once |
| Urls.SizesExample | test/integration/ApiTest.php:38-55 | the default catalog restricted to `thumbnail` and `medium` gives those two entries, values unchanged |
| UploadOptions.StripSuffixSpec | cumulus.php:237 | `preg_replace('/<ext>$/', '', s)` removes the suffix at the end, or just before a final newline (which stays), or nothing |
| UploadOptions.StripSuffix | cumulus.php:237 | one `preg_replace` with a `$`-anchored pattern; no contract of its own, stated by `StripSuffixSpec` |
| UploadOptions.StripAll | cumulus.php:235-238 | the patterns applied in order; no contract of its own, stated by `StripExtensionsUnfold` and the loop invariant of `RewriteOptions` |
| UploadOptions.StripExtensions | cumulus.php:235-238 | the three image patterns in source order; no contract of its own, stated by the `StripExtensions…` lemmas |
| UploadOptions.StripSuffixOf | cumulus.php:237 | a name ending in the suffix loses exactly the suffix |
| UploadOptions.StripSuffixMiss | cumulus.php:237 | a name is kept exactly when it ends neither in the suffix nor in the suffix plus a newline |
| UploadOptions.StripSuffixMissAt | cumulus.php:237 | a name that differs from the suffix at some position counted from the end, and whose last character is not a newline, is kept |
| UploadOptions.StripExtensionsUnfold | cumulus.php:235-238 | the loop applies `.jpeg`, then `.jpg`, then `.png`, each once |
| UploadOptions.StripExtensionsPng | cumulus.php:235-238 | `b.png` becomes `b` |
| UploadOptions.StripExtensionsJpg | cumulus.php:235-238 | `b.jpg` becomes `b` with one `.png` suffix then removed, since `.png` is tried last |
| UploadOptions.StripExtensionsJpeg | cumulus.php:235-238 | `b.jpeg` loses `.jpeg`, then possibly `.jpg`, then `.png` |
| UploadOptions.StripExtensionsOther | cumulus.php:235-238 | a name with none of the suffixes is unchanged |
| UploadOptions.StripExtensionsCaseSensitive | cumulus.php:235-238 | `cat.JPG` is unchanged: matching is case-sensitive |
| UploadOptions.StripExtensionsBeforeNewline | cumulus.php:235-238 | `cat.jpg` followed by a newline becomes `cat` followed by a newline |
| UploadOptions.PublicId | cumulus.php:240-243 | the stripped name, under `folder/` exactly when the folder is truthy |
| UploadOptions.RewrittenOptions | cumulus.php:233-246 | only `public_id` changes (or is added); other options are kept |
| UploadOptions.RewriteOptions | cumulus.php:233-246 | the loop over the three patterns and the folder prefix compute `RewrittenOptions` |
| Settings.ManagedKey | cumulus.php:72-98 | the four managed keys, and only them, name a fallback pair |
| Settings.GetOption | cumulus.php:108-110 | `get_option` gives the stored value, or false when absent |
| Settings.DefaultsFrom | cumulus.php:107-111 | the defaults hold exactly `cloud_name`, `api_key` and `api_secret`, read from `cumulus_cloud_name`, `cumulus_api_key` and `cumulus_api_secret` |
| Settings.DefaultsCache.Load | cumulus.php:106-113 | the first call reads the options; later calls return the cached array |
| Settings.LoadTwice | cumulus.php:103-114 | two loads in one request agree, with what the first one read, even if the options changed |
| Settings.ParseArgs | cumulus.php:67-70 | `wp_parse_args`: incoming values win key by key, and defaults fill the rest |
| Settings.EnvValue | cumulus.php:75-76 | an environment variable counts exactly when it is set and non-empty |
| Settings.Chosen | cumulus.php:72-77 | a truthy current value stays; else a truthy constant; else a non-empty variable; the result is truthy only from one of these |
| Settings.ConstantAsWritten | cumulus.php:93-94 | as written, `folder` gets `CUMULUS_API_SECRET` when `CUMULUS_FOLDER` is defined; other keys get their own constant |
| Settings.ConstantIntended | cumulus.php:93-94 | every key, `folder` included, gets its own constant |
| Settings.Settle | cumulus.php:72-77 | one fallback pair sets only its own key, to its `Chosen` value, and creates it only when something is on offer |
| Settings.Settled | cumulus.php:72-98 | the four pairs in the filter's order; no contract of its own, stated by `SettledManaged` and `SettledUnmanaged` |
| Settings.ConstantFor | cumulus.php:72-94 | the constant a key falls back to, as written or corrected; no contract of its own, stated by `ConstantAsWritten` and `ConstantIntended` |
| Settings.ChosenFor | cumulus.php:72-98 | one key's `Chosen` value in the chain; no contract of its own, stated by `Chosen` |
| Settings.FolderThrows | cumulus.php:93-94 | when the as-written folder pair reads the undefined `CUMULUS_API_SECRET`; no contract of its own, used by `ResolveSettings` |
| Settings.FallBack | cumulus.php:72-77 | the two `if`s of one pair compute `Settle` |
| Settings.SettledUnmanaged | cumulus.php:66-101 | keys other than the four are returned untouched |
| Settings.SettledManaged | cumulus.php:72-98 | each managed key ends up with its own `Chosen` value, whatever the other pairs do |
| Settings.ResolveSettings | cumulus.php:66-101 | as written: throws exactly when the folder is empty, `CUMULUS_FOLDER` is defined and `CUMULUS_API_SECRET` is not; otherwise the merged settings after the four pairs |
| Settings.ResolveSettingsIntended | cumulus.php:93-94 | the corrected filter never throws and gives the corrected chain |
| Settings.IncomingWins | cumulus.php:66-70 | a truthy incoming value is kept, for every key |
| Settings.DefaultFillsAbsent | cumulus.php:66-70 | a key not passed in takes its truthy database default |
| Settings.ConstantBeatsEnv | cumulus.php:72-91 | for cloud name, API key and secret, an empty setting takes a truthy constant even when the environment has a value |
| Settings.EnvWithoutConstant | cumulus.php:72-91 | with no constant, an empty setting takes the non-empty environment variable |
| Settings.NothingToOffer | cumulus.php:72-98 | with no constant and no non-empty variable, an empty setting stays as it was |
| Settings.FolderTakesSecret | cumulus.php:93-94 | as written, an empty folder becomes the API secret when `CUMULUS_FOLDER` is defined |
| Settings.FolderQuirkExample | cumulus.php:93-94 | `CUMULUS_FOLDER` = `uploads` and secret `s3cr3t`: the folder comes out `s3cr3t` |
| Settings.FolderFromConstantIntended | cumulus.php:93-94 | corrected, an empty folder becomes `CUMULUS_FOLDER` |
| Settings.IntendedDiffersOnlyInFolder | cumulus.php:72-98 | the corrected chain agrees with the original on every key but `folder` |
| Settings.CurrentSettings | api.php:17-28 | `settings()` runs the filter as written over the database defaults: it throws exactly when `CUMULUS_FOLDER` is defined and `CUMULUS_API_SECRET` is not; otherwise it gives the as-written chain, which has the documented `cloud_name`, `api_key` and `api_secret` keys |
| Settings.CurrentSettingsIntended | api.php:17-28 | `settings()` over the corrected filter: never throws, gives the corrected chain, and has the three documented keys |
| Settings.FolderGetterAsWritten | api.php:54-56 | as written, `folder()` returns the API secret when both constants are defined and no folder option exists |
| Settings.Setting | api.php:33-56 | a getter applied to resolved settings gives `''` for a missing key and a string as stored; it fails only on an array; it is truthy exactly when the setting is |
| Records.MetaOf | cumulus.php:160 | missing meta reads as the empty record |
| Records.MetaStore.Meta | cumulus.php:138 | `get_post_meta($id, 'cumulus_image', true) ?: []`; no contract of its own, it is `MetaOf` of the store |
| Records.MetaStore.Update | api.php:146-151 | `update_post_meta` replaces one attachment's record |
| Records.NameSetMembers | api.php:117-132 | a name is among the sizes' names exactly when some size carries it |
| Records.Tabulate | api.php:117-144 | the `array_reduce` that builds a per-size array; no contract of its own, stated by `TabulateKeys` and `TabulateValues` |
| Records.TabulateKeys | api.php:117-144 | a per-size array has exactly the sizes' names as keys |
| Records.TabulateValues | api.php:117-144 | with distinct names, each size's entry is the value computed for that size |
| Records.UrlsBySize | api.php:117-132 | `urls_by_size` before `full` has exactly the managed names as keys |
| Records.UrlsBySizeValues | api.php:117-132 | each managed size maps to `default_url` of its own dimensions |
| Records.ParamsBySize | api.php:137-144 | `params_by_size` has exactly the managed names, each `{edit_mode: scale}` |
| Records.UrlsWithFull | api.php:134-135 | `urls_by_size` has the managed names plus `full`, and `full` is the result's `secure_url` |
| Records.UrlsWithFullValues | api.php:115-135 | every managed size other than `full` keeps its default URL |
| Records.BuildRecord | api.php:146-151 | the record has exactly four keys: `cloudinary_id` is the public ID, `cloudinary_data` the result, and the two per-size arrays |
| Records.SaveUploaded | api.php:110-152 | an empty result writes nothing; otherwise the attachment's record is replaced |
| Records.Saved | api.php:110-152 | the records after `save_uploaded`; no contract of its own, stated by `SaveUploaded`, `SavedReplacesWholesale` and `SuccessfulUploadRecord` |
| Records.SavedReplacesWholesale | api.php:146-151 | the saved record does not depend on what was stored before; other attachments are untouched |
| Records.ShouldUpload | api.php:62-74 | false without a file; otherwise true exactly when the detected MIME type is listed (loosely) |
| Records.AttachedFile | api.php:63 | `get_attached_file`: the path, or `""` when there is none; no contract of its own |
| Records.ManagedSizes | api.php:95-101 | `sizes()` for the host; no contract of its own, it is `Urls.Sizes` |
| Records.MimeListed | api.php:68-73 | loose `in_array`: a detected type is listed when equal to an entry, a failed detection when an entry is falsy; no contract of its own |
| Records.MimeOf | api.php:73 | `mime_content_type`: the detected type, or none for `false`; no contract of its own |
| Records.TrimSlashes | api.php:171 | trailing slashes are removed and nothing else |
| Records.AfterLastSlash | api.php:171 | the last component holds no slash |
| Records.AfterLastSlashIsLastComponent | api.php:171 | the part kept is a tail of the input that is either all of it or preceded by a slash, so with no slash of its own it is the last component |
| Records.Basename | api.php:171 | `basename` never holds a slash |
| Records.BasenameOfPath | api.php:171 | the base name of `dir/name` (with any trailing slashes) is `name` |
| Records.UploadOptionsFor | api.php:170-173 | the upload gets exactly `public_id` (the filtered base name) and `folder` |
| Records.UploadCall | api.php:166-173 | the upload call on the path with the filtered options; no contract of its own |
| Records.UploadResult | api.php:166-184 | the result that is saved: the upload's own result, or empty when the call threw either exception |
| Records.UploadAttachment | api.php:159-187 | as written: no file, nothing happens; an `ApiError` is reported and nothing saved; a standard `\InvalidArgumentException` escapes exactly when `Escapes` holds, before anything is saved; otherwise the result is saved |
| Records.Escapes | api.php:10-13 | the upload of an attachment with a file throws the standard `\InvalidArgumentException`, which the second `catch` (api.php:179) does not name; no contract of its own |
| Records.AfterUpload | api.php:159-187 | the records after `upload_attachment`, whether it returns or throws; no contract of its own, stated by `UploadAttachment` and the lemmas below |
| Records.UploadAttachmentIntended | api.php:174-186 | with the second `catch` naming the standard exception: always returns, reports the message of either exception, and writes what the as-written version writes |
| Records.OnAddAttachment | cumulus.php:222-228 | uploads exactly the attachments `should_upload` accepts; an exception escapes the hook exactly when it escapes that upload |
| Records.FailedUploadWritesNothing | api.php:166-186 | a failed upload leaves the records as they were |
| Records.NoFileWritesNothing | api.php:160-163 | without a file, `should_upload` is false and nothing is written |
| Records.SuccessfulUploadRecord | api.php:159-187 | a successful upload stores the built record under its own ID, with `urls_by_size` keyed by the managed names plus `full` |
| Records.UploadTouchesOnlyItsId | api.php:146-151 | an upload changes no other attachment's record |
| Records.UploadAsksForPublicId | api.php:170-173 | `<dir>/cat.jpg` with folder `test` is uploaded as `test/cat` |
| Rest.NonceAction | cumulus.php:174 | the nonce action is `cumulus_attachment_` followed by the route parameter exactly as given |
| Rest.AttachmentOf | cumulus.php:155-160 | the attachment the parameter names is its decimal value; a parameter without a leading zero is the notation of that value |
| Rest.CanonicalDigits | cumulus.php:155-160 | a digit string without a leading zero is the decimal notation of its value |
| Rest.NonceFollowsSpelling | cumulus.php:174-199 | `007` and `7` read the same attachment but have different nonce actions |
| Rest.OrEmpty | cumulus.php:182-183 | `?? []`: the stored value unless missing or null |
| Rest.RestGet | cumulus.php:157-186 | `uploaded: false` exactly when there is no record; otherwise a nonce for the parameter as given, `version`, `public_id.format`, `secure_url`, `width` and `height` read from `cloudinary_data` (null where missing), and the per-size params and URLs, `[]` where missing or null |
| Rest.GetAfterUpload | cumulus.php:169-183 | after an upload, GET reports the result's file name, version, full URL, dimensions, and the saved per-size arrays |
| Rest.GetWithoutUpload | cumulus.php:169-183 | a record written only by a crop edit: the per-size URLs default to `[]`, the file name is `.`, the full URL null |
| Rest.FilenameAfterUpload | cumulus.php:177 | after an upload, GET's file name is the result's `public_id.format` |
| Rest.FilenameEndsEveryUrl | cumulus.php:177 | GET's file name is the tail of every default URL of the same upload |
| Rest.MergeAbsorbs | cumulus.php:206-208 | merging the merged config over the record again changes nothing, so the stored record is the returned config |
| Rest.Posted | cumulus.php:206-208 | the stored record keeps every old key, posted keys win, and the merge is top-level only |
| Rest.RestPost | cumulus.php:195-214 | a bad nonce is rejected and writes nothing; a non-object body throws and writes nothing; otherwise the merged record is stored and returned |
| Rest.GetAfterEdit | cumulus.php:195-214 | after posting `params_by_size`, GET returns it, with URLs, file name and full URL unchanged |
| Rest.EmptyPostKeepsRecord | cumulus.php:206-208 | posting an empty object stores the record unchanged |
| SrcFilter.RewrittenSrc | cumulus.php:141-146 | only the URL changes: a legacy `sizes` entry wins, then `urls_by_size`, else the original |
| SrcFilter.StoredUrl | cumulus.php:142-144 | `$config[$group][$size]` is found exactly when the group is an array holding the size with a non-null value, and is then that value |
| SrcFilter.SrcFilter.Apply | cumulus.php:128-147 | the meta is read only on the first call for an ID; the answer comes from the cached record |
| SrcFilter.ApplyTwice | cumulus.php:131-139 | two calls for one ID read its meta once, and both answer from the stored record |
| SrcFilter.NoRecordKeepsSrc | test/integration/UrlTest.php:27-41 | without a record the src comes back unchanged |
| SrcFilter.StoredUrlReplacesSrc | test/integration/UrlTest.php:43-64 | the test's stored thumbnail URL replaces the src; width, height and flag are kept |
| SrcFilter.UrlsBySizeServed | cumulus.php:142 | without a legacy group, a set `urls_by_size` entry becomes the URL |
| SrcFilter.RecordUrl | api.php:117-135 | a saved record's `urls_by_size` holds each managed size's default URL |
| SrcFilter.UploadedRecordServesDefaultUrl | cumulus.php:141-144 | after an upload, the filter serves each managed size its default URL |
| BulkUpload.CheckShouldUpload | wp-cli.php:123-148 | false when `should_upload` is; an attachment with a record only under `--force`; one without a record always |
| BulkUpload.Select | wp-cli.php:71-73 | an ID is selected exactly when it is listed and passes the check |
| BulkUpload.SelectAppend | wp-cli.php:71-73 | selection keeps the original order |
| BulkUpload.Truncate | wp-cli.php:75-82 | with `0 <= count < n` the first `count` IDs, otherwise all; always a prefix |
| BulkUpload.Selection | wp-cli.php:71-82 | the selected IDs, then truncated; no contract of its own, stated by `Select` and `Truncate` |
| BulkUpload.IdLines | wp-cli.php:89-93 | `--porcelain` prints each ID; with neither flag, one success line per ID; with `--summarize` only, nothing per ID |
| BulkUpload.Report | wp-cli.php:84-98 | the per-ID lines, then the total under `--summarize`; no contract of its own, stated by `IdLines`, `SummaryIsTotal` and `PorcelainPrintsIds` |
| BulkUpload.UploadAll | wp-cli.php:84-88 | each ID uploaded in turn; no contract of its own, stated by `UploadAllTouchesOnlyIds` and `UploadAllFailing` |
| BulkUpload.Completed | wp-cli.php:84-94 | the IDs a real run gets through: a prefix in which no upload escapes, followed by the escaping ID if the run stops early |
| BulkUpload.CompletedAt | wp-cli.php:84-94 | a prefix that ends at the first escape, or at the end, is `Completed` |
| BulkUpload.EachOutput | wp-cli.php:84-98 | the full report, or only the lines before an escape; no contract of its own, stated by `EscapeStops` and `NoEscapeReportsAll` |
| BulkUpload.RunOutput | wp-cli.php:64-98 | `EachOutput` of the selection; no contract of its own |
| BulkUpload.UploadNext | wp-cli.php:85-87 | one upload of the loop: it throws exactly when `Escapes` holds, then writes nothing; otherwise the records grow by that upload |
| BulkUpload.UploadEach | wp-cli.php:84-98 | the loop and summary print `EachOutput`; the run reports an escape exactly when a real run stops early; a dry run writes nothing; otherwise the IDs up to the escape are uploaded in turn |
| BulkUpload.BulkUpload | wp-cli.php:64-99 | the output is `RunOutput` for the selected, truncated IDs; an escaping exception ends a real run; a dry run writes nothing; otherwise the IDs it gets through are uploaded in turn |
| BulkUpload.UploadEachIntended | wp-cli.php:84-98 | with the intended `catch`: the loop prints the full report and uploads every ID in turn |
| BulkUpload.BulkUploadIntended | wp-cli.php:64-99 | with the intended `catch`: the full report of the selection, and every selected ID uploaded in a real run |
| BulkUpload.NoEscapeReportsAll | wp-cli.php:84-98 | when no upload escapes, or in a dry run, the run gets through every ID and prints the full report |
| BulkUpload.EscapeStops | wp-cli.php:84-98 | when the `i`-th upload is the first to escape, the run prints only the lines of the IDs before it |
| BulkUpload.EscapeEndsRun | wp-cli.php:84-98 | an escape on the first chosen ID ends a real run with nothing printed, where the intended run prints at least the total under `--summarize` |
| BulkUpload.ForceDecidesReupload | wp-cli.php:132-147 | an uploadable attachment that has a record is selected exactly under `--force` |
| BulkUpload.DryRunReportsSame | wp-cli.php:84-98 | a dry run prints the full report, and a real run prints the same when no upload escapes |
| BulkUpload.SummaryIsTotal | wp-cli.php:96-98 | `--summarize` alone prints just the count of processed IDs |
| BulkUpload.PorcelainPrintsIds | wp-cli.php:89-98 | `--porcelain` prints exactly the IDs in order, then the total under `--summarize` |
| BulkUpload.UploadAllTouchesOnlyIds | wp-cli.php:84-88 | the run leaves unselected attachments' records alone |
| BulkUpload.UploadAllFailing | wp-cli.php:84-88 | when every upload fails, the run writes nothing |
| BulkUpload.CountBounds | wp-cli.php:75-82 | `--count=0` processes nothing; the default `-1` processes all |

## Left out

- Cloudinary SDK configuration (`Configuration::instance`) and the upload request itself are foreign network I/O. The upload is a parameter of `Records.Host` that returns a result or throws an `ApiError` or a standard `\InvalidArgumentException`. Other exceptions and errors from the SDK are not modelled.
- The `static $uploader` memo in `upload_attachment` only avoids rebuilding the SDK client, so it is not modelled.
- Filters that third parties may hook are modelled as follows:
  - `cumulus/crop_url/<size>` and `cumulus/mime_types_to_upload` are the identity;
  - `cumulus/sizes` is the `allow` parameter;
  - `cumulus/upload_options` is the plugin's own callback.
- Records.MimeListed: `in_array` compares loosely. The model treats a failed MIME detection (`false`) as equal to `""` and `"0"`, and compares detected types as strings. It does not model PHP 8's numeric-string equality, which real MIME types never trigger.
- The src filter when `$src` is `false` or `$size` is an array is not modelled. `ImageSrc` is always a four-element src, and the size is always a name.
- Rest.RestGet: `cloudinary_data` that is a string rather than an array is read as having no fields. PHP's string-offset behaviour is not modelled.
- Rest.AttachmentOf: the parameter is read as its unbounded decimal value. WordPress reads it through `absint()`, an `(int)` cast, so ids past `PHP_INT_MAX` (20 digits or more) are not read at their value. Id 0 (`0`, `000`) names no post, so the meta API reads nothing and writes nothing for it, while the model reads and writes `records[0]`.
- Rest.RestPost: a JSON body is a `Value`, so integer keys and the renumbering `array_merge` applies to them are not modelled.
- Records.UrlsBySize: a size registered under a decimal name such as `300` becomes an integer key, which `array_merge` renumbers from 0, so that size's URL is not stored under its name. The model always keys by name, because `Value` arrays have string keys only.
- Records.ParamsBySize: the same renumbering applies to the params of a size with a decimal name; the model keys by name.
- Records.UrlsWithFull: inherits the keying by name from `UrlsBySize`.
- Records.TabulateKeys: states keys by name, which holds for sizes whose names are not decimal integers.
- Records.UploadAttachment: `folder()` is the `folder` field of `Records.Host`. The `Error` that the as-written settings filter throws from `folder()` (see `Settings.CurrentSettings`) is not propagated into the upload path.
- Attachment IDs come from `WP_Query` (wp-cli.php:106-115). `BulkUpload.BulkUpload` takes them as a parameter.
- WP-CLI debug and log text is modelled only as which IDs and counts are reported (`BulkUpload.Line`).
- Option, constant and environment reads are parameters. Hook registration (`add_filter`, `add_action`, `register_rest_route`) is not modelled: each callback is modelled as the function it registers.
- `views/media-templates.php`, script and style enqueueing, and view rendering are UI glue with no logic, so they are not modelled.
- Records.MetaStore: post meta holds only `cumulus_image` records. A record stored as the empty array and a missing record read the same (`MetaOf`).

## Findings

| source | as written | input that shows it | evidently intended | confidence | as-written member | corrected member |
|---|---|---|---|---|---|---|
| cumulus.php:93-94 | when the folder is empty and `CUMULUS_FOLDER` is defined, the folder is set to `CUMULUS_API_SECRET` | `CUMULUS_FOLDER` = `"uploads"`, `CUMULUS_API_SECRET` = `"s3cr3t"`, no folder option: the folder becomes `"s3cr3t"`, so uploads go to a folder named after the API secret. With `CUMULUS_API_SECRET` undefined, PHP 8 throws `Error` | the folder takes `CUMULUS_FOLDER` | high (not executed) | Settings.FolderQuirkExample | Settings.FolderFromConstantIntended |
| api.php:179 | `catch (InvalidArgumentException $err)` sits in namespace `SiteCrafting\Cumulus` (api.php:10) with no `use` for that class, so it names `SiteCrafting\Cumulus\InvalidArgumentException` and does not catch the standard exception | a bulk run over IDs 1 and 2 whose first upload throws `\InvalidArgumentException`: the exception escapes `upload_attachment`, nothing is printed, ID 2 is never uploaded, and no total appears | the standard exception is reported through `cumulus/api_error` and the run goes on | high (not executed) | BulkUpload.EscapeEndsRun | BulkUpload.BulkUploadIntended |

For the first row, the as-written filter is `Settings.ResolveSettings`. It throws `UndefinedConstant` exactly in the second case of the row. `settings()` (`Settings.CurrentSettings`) runs that filter, as the program does. The corrected filter is `Settings.ResolveSettingsIntended`, and `Settings.CurrentSettingsIntended` builds `settings()` on it. `Settings.IntendedDiffersOnlyInFolder` shows that the correction changes nothing but the folder.

For the second row, the as-written upload is `Records.UploadAttachment`, which lets the exception out, and the hook (`Records.OnAddAttachment`) and the bulk command (`BulkUpload.BulkUpload`) pass it on. The corrected upload is `Records.UploadAttachmentIntended`, and `BulkUpload.BulkUploadIntended` runs the command on it. Both write the same records (`Records.AfterUpload`). `BulkUpload.NoEscapeReportsAll` shows that the two runs print the same whenever no upload throws that exception.
