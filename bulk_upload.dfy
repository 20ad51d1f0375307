/**
 * The `wp cumulus bulk-upload` command (wp-cli.php:64-148): pick the
 * attachments to upload, cap their number, upload them unless it is a dry
 * run, and report them one per line or as a total.
 */
module BulkUpload {
  import opened PhpValues
  import opened Records

  /** The command's options; `count` is `-1` when not given. */
  datatype Flags = Flags(count: int, force: bool, dryRun: bool, porcelain: bool, summarize: bool)

  /** A line of output: a bare ID (`--porcelain`), a per-ID success line, or the total (`--summarize`). */
  datatype Line = IdLine(id: int) | UploadedLine(id: int) | TotalLine(total: nat)

  /**
   * `check_should_upload($id, $force)` (wp-cli.php:123-148): only what
   * `should_upload` accepts, and an attachment that already has a record
   * only under `--force`.
   */
  function CheckShouldUpload(host: Host, records: map<int, Record>, id: int, force: bool): (r: bool)
    ensures !ShouldUpload(host, id) ==> !r
    ensures ShouldUpload(host, id) && MetaOf(records, id) != map[] ==> (r <==> force)
    ensures ShouldUpload(host, id) && MetaOf(records, id) == map[] ==> r
  {
    if !ShouldUpload(host, id) then false
    else if MetaOf(records, id) != map[] && !force then false
    else true
  }

  /** The `array_filter` of all attachment IDs by `CheckShouldUpload` (wp-cli.php:71-73). */
  function Select(host: Host, records: map<int, Record>, ids: seq<int>, force: bool): (r: seq<int>)
    ensures forall id :: id in r <==> id in ids && CheckShouldUpload(host, records, id, force)
    ensures |r| <= |ids|
    decreases |ids|
  {
    if ids == [] then []
    else
      var rest := Select(host, records, ids[1..], force);
      assert forall id :: id in ids <==> id == ids[0] || id in ids[1..];
      if CheckShouldUpload(host, records, ids[0], force) then [ids[0]] + rest else rest
  }

  /** The selection keeps the original order: selecting from a concatenation concatenates the selections. */
  lemma {:induction false} SelectAppend(host: Host, records: map<int, Record>, a: seq<int>, b: seq<int>, force: bool)
    ensures Select(host, records, a + b, force) == Select(host, records, a, force) + Select(host, records, b, force)
    decreases |a|
  {
    if a == [] {
      assert a + b == b;
    } else {
      assert (a + b)[0] == a[0] && (a + b)[1..] == a[1..] + b;
      SelectAppend(host, records, a[1..], b, force);
    }
  }

  /**
   * `array_slice($ids, 0, $count)` when `$count > -1 && $count < count($ids)`
   * (wp-cli.php:75-82): the first `count` IDs; otherwise all of them.
   */
  function Truncate(ids: seq<int>, count: int): (r: seq<int>)
    ensures 0 <= count < |ids| ==> r == ids[..count] && |r| == count
    ensures !(0 <= count < |ids|) ==> r == ids
    ensures r <= ids
  {
    if count > -1 && count < |ids| then ids[..count] else ids
  }

  /** The IDs the command processes, in order. */
  function Selection(host: Host, records: map<int, Record>, allIds: seq<int>, flags: Flags): seq<int> {
    Truncate(Select(host, records, allIds, flags.force), flags.count)
  }

  /** The line printed for one processed ID, if any. */
  function IdLines(ids: seq<int>, porcelain: bool, summarize: bool): (lines: seq<Line>)
    ensures porcelain ==> |lines| == |ids| && forall i :: 0 <= i < |ids| ==> lines[i] == IdLine(ids[i])
    ensures !porcelain && !summarize ==> |lines| == |ids| && forall i :: 0 <= i < |ids| ==> lines[i] == UploadedLine(ids[i])
    ensures !porcelain && summarize ==> lines == []
    decreases |ids|
  {
    if ids == [] then []
    else
      var init := ids[..|ids| - 1];
      var last := ids[|ids| - 1];
      assert forall i :: 0 <= i < |init| ==> init[i] == ids[i];
      IdLines(init, porcelain, summarize) +
      (if porcelain then [IdLine(last)] else if !summarize then [UploadedLine(last)] else [])
  }

  /** Everything the command prints for the processed IDs (wp-cli.php:84-98). */
  function Report(ids: seq<int>, porcelain: bool, summarize: bool): seq<Line> {
    IdLines(ids, porcelain, summarize) + (if summarize then [TotalLine(|ids|)] else [])
  }

  /** The records after uploading each ID in turn. */
  function UploadAll(records: map<int, Record>, host: Host, ids: seq<int>): map<int, Record>
    decreases |ids|
  {
    if ids == [] then records
    else AfterUpload(UploadAll(records, host, ids[..|ids| - 1]), host, ids[|ids| - 1])
  }

  lemma UploadAllStep(records: map<int, Record>, host: Host, ids: seq<int>, i: nat)
    requires i < |ids|
    ensures UploadAll(records, host, ids[..i + 1]) == AfterUpload(UploadAll(records, host, ids[..i]), host, ids[i])
  {
    assert ids[..i + 1][..i] == ids[..i];
  }

  lemma IdLinesStep(ids: seq<int>, i: nat, porcelain: bool, summarize: bool)
    requires i < |ids|
    ensures IdLines(ids[..i + 1], porcelain, summarize) == IdLines(ids[..i], porcelain, summarize) +
              (if porcelain then [IdLine(ids[i])] else if !summarize then [UploadedLine(ids[i])] else [])
  {
    assert ids[..i + 1][..i] == ids[..i];
  }

  /**
   * The IDs a real run gets through: those before the first whose upload
   * lets an exception escape (`Escapes`), which ends the `foreach` and the
   * command.
   */
  function Completed(host: Host, ids: seq<int>): (done: seq<int>)
    ensures done <= ids
    ensures forall i :: 0 <= i < |done| ==> !Escapes(host, done[i])
    ensures |done| < |ids| ==> Escapes(host, ids[|done|])
    decreases |ids|
  {
    if ids == [] then []
    else if Escapes(host, ids[0]) then []
    else [ids[0]] + Completed(host, ids[1..])
  }

  /** No upload of `ids` lets an exception out. */
  predicate NoneEscape(host: Host, ids: seq<int>)
    decreases |ids|
  {
    ids == [] || (NoneEscape(host, ids[..|ids| - 1]) && !Escapes(host, ids[|ids| - 1]))
  }

  lemma {:induction false} NoneEscapeAt(host: Host, ids: seq<int>, j: nat)
    requires NoneEscape(host, ids) && j < |ids|
    ensures !Escapes(host, ids[j])
    decreases |ids|
  {
    if j < |ids| - 1 {
      NoneEscapeAt(host, ids[..|ids| - 1], j);
    }
  }

  lemma {:induction false} NoneEscapeAll(host: Host, ids: seq<int>)
    requires forall j :: 0 <= j < |ids| ==> !Escapes(host, ids[j])
    ensures NoneEscape(host, ids)
    decreases |ids|
  {
    if ids != [] {
      NoneEscapeAll(host, ids[..|ids| - 1]);
    }
  }

  lemma NoneEscapeSnoc(host: Host, ids: seq<int>, i: nat)
    requires i < |ids| && NoneEscape(host, ids[..i]) && !Escapes(host, ids[i])
    ensures NoneEscape(host, ids[..i + 1])
  {
    assert ids[..i + 1][..i] == ids[..i];
  }

  /** A prefix that runs up to an escape, or to the end, is what `Completed` gives. */
  lemma CompletedAt(host: Host, ids: seq<int>, i: nat)
    requires i <= |ids|
    requires NoneEscape(host, ids[..i])
    requires i < |ids| ==> Escapes(host, ids[i])
    ensures Completed(host, ids) == ids[..i]
  {
    forall j | 0 <= j < i
      ensures !Escapes(host, ids[j])
    {
      NoneEscapeAt(host, ids[..i], j);
    }
  }

  /**
   * What the loop and the summary print for the IDs `ids` (wp-cli.php:84-98):
   * the report of every ID, unless an upload threw; then the lines of the
   * IDs before it and no total.
   */
  function EachOutput(host: Host, ids: seq<int>, flags: Flags): seq<Line> {
    var done := if flags.dryRun then ids else Completed(host, ids);
    if |done| == |ids| then Report(ids, flags.porcelain, flags.summarize)
    else IdLines(done, flags.porcelain, flags.summarize)
  }

  /** What the whole command prints. */
  function RunOutput(host: Host, records: map<int, Record>, allIds: seq<int>, flags: Flags): seq<Line> {
    EachOutput(host, Selection(host, records, allIds, flags), flags)
  }

  /** One turn of the loop's upload: the records grow by the `i`-th upload, or stay as they were when it throws. */
  method UploadNext(store: MetaStore, host: Host, records: map<int, Record>, ids: seq<int>, i: nat) returns (c: Completion)
    requires i < |ids| && store.records == UploadAll(records, host, ids[..i])
    modifies store
    ensures c.Threw? <==> Escapes(host, ids[i])
    ensures c.Threw? ==> store.records == UploadAll(records, host, ids[..i])
    ensures c.Returned? ==> store.records == UploadAll(records, host, ids[..i + 1])
  {
    UploadAllStep(records, host, ids, i);
    c := UploadAttachment(store, host, ids[i]);
    if c.Threw? {
      FailedUploadWritesNothing(UploadAll(records, host, ids[..i]), host, ids[i]);
    }
  }

  /**
   * The `foreach` over the chosen IDs and the summary (wp-cli.php:84-98):
   * upload each ID unless it is a dry run, and print its line. `escaped` is
   * the message of an exception that ended the run.
   */
  method UploadEach(store: MetaStore, host: Host, ids: seq<int>, flags: Flags) returns (out: seq<Line>, escaped: Option<string>)
    modifies store
    ensures out == EachOutput(host, ids, flags)
    ensures escaped.Some? <==> !flags.dryRun && |Completed(host, ids)| < |ids|
    ensures flags.dryRun ==> store.records == old(store.records)
    ensures !flags.dryRun ==> store.records == UploadAll(old(store.records), host, Completed(host, ids))
  {
    var records := store.records;
    out := [];
    for i := 0 to |ids|
      invariant !flags.dryRun ==> NoneEscape(host, ids[..i])
      invariant flags.dryRun ==> store.records == records
      invariant !flags.dryRun ==> store.records == UploadAll(records, host, ids[..i])
      invariant out == IdLines(ids[..i], flags.porcelain, flags.summarize)
    {
      IdLinesStep(ids, i, flags.porcelain, flags.summarize);
      if !flags.dryRun {
        var c := UploadNext(store, host, records, ids, i);
        if c.Threw? {
          EscapeStops(host, ids, flags, i);
          return out, Some(c.message);
        }
        NoneEscapeSnoc(host, ids, i);
      }
      if flags.porcelain {
        out := out + [IdLine(ids[i])];
      } else if !flags.summarize {
        out := out + [UploadedLine(ids[i])];
      }
    }
    assert ids[..|ids|] == ids;
    CompletesAll(host, ids, flags);
    if flags.summarize {
      out := out + [TotalLine(|ids|)];
    }
    escaped := None;
  }

  /**
   * `bulk_upload` (wp-cli.php:64-99). The IDs are chosen before any upload;
   * `allIds` is what the attachment query returns.
   */
  method BulkUpload(store: MetaStore, host: Host, allIds: seq<int>, flags: Flags) returns (out: seq<Line>, escaped: Option<string>)
    modifies store
    ensures out == RunOutput(host, old(store.records), allIds, flags)
    ensures var ids := Selection(host, old(store.records), allIds, flags);
            escaped.Some? <==> !flags.dryRun && |Completed(host, ids)| < |ids|
    ensures flags.dryRun ==> store.records == old(store.records)
    ensures !flags.dryRun ==> store.records == UploadAll(old(store.records), host, Completed(host, Selection(host, old(store.records), allIds, flags)))
  {
    var ids := Select(host, store.records, allIds, flags.force);
    if flags.count > -1 && flags.count < |ids| {
      ids := ids[..flags.count];
    }
    out, escaped := UploadEach(store, host, ids, flags);
  }

  /**
   * The `foreach` and the summary with `upload_attachment` catching the
   * standard `\InvalidArgumentException` as evidently intended: every ID is
   * processed and reported, and the total printed under `--summarize`.
   */
  method UploadEachIntended(store: MetaStore, host: Host, ids: seq<int>, flags: Flags) returns (out: seq<Line>)
    modifies store
    ensures out == Report(ids, flags.porcelain, flags.summarize)
    ensures flags.dryRun ==> store.records == old(store.records)
    ensures !flags.dryRun ==> store.records == UploadAll(old(store.records), host, ids)
  {
    var records := store.records;
    out := [];
    for i := 0 to |ids|
      invariant flags.dryRun ==> store.records == records
      invariant !flags.dryRun ==> store.records == UploadAll(records, host, ids[..i])
      invariant out == IdLines(ids[..i], flags.porcelain, flags.summarize)
    {
      IdLinesStep(ids, i, flags.porcelain, flags.summarize);
      if !flags.dryRun {
        UploadAllStep(records, host, ids, i);
        var _ := UploadAttachmentIntended(store, host, ids[i]);
      }
      if flags.porcelain {
        out := out + [IdLine(ids[i])];
      } else if !flags.summarize {
        out := out + [UploadedLine(ids[i])];
      }
    }
    assert ids[..|ids|] == ids;
    if flags.summarize {
      out := out + [TotalLine(|ids|)];
    }
  }

  /** `bulk_upload` with the intended `catch`: the full report of the selection, whatever the uploads do. */
  method BulkUploadIntended(store: MetaStore, host: Host, allIds: seq<int>, flags: Flags) returns (out: seq<Line>)
    modifies store
    ensures out == Report(Selection(host, old(store.records), allIds, flags), flags.porcelain, flags.summarize)
    ensures flags.dryRun ==> store.records == old(store.records)
    ensures !flags.dryRun ==> store.records == UploadAll(old(store.records), host, Selection(host, old(store.records), allIds, flags))
  {
    var ids := Select(host, store.records, allIds, flags.force);
    if flags.count > -1 && flags.count < |ids| {
      ids := ids[..flags.count];
    }
    out := UploadEachIntended(store, host, ids, flags);
  }

  lemma CompletesAll(host: Host, ids: seq<int>, flags: Flags)
    requires flags.dryRun || NoneEscape(host, ids)
    ensures !flags.dryRun ==> Completed(host, ids) == ids
    ensures EachOutput(host, ids, flags) == Report(ids, flags.porcelain, flags.summarize)
  {
    if !flags.dryRun {
      assert ids[..|ids|] == ids;
      CompletedAt(host, ids, |ids|);
    }
  }

  /**
   * When no upload lets an exception out, or nothing is uploaded, the loop
   * as written gets through every ID and prints what the intended loop
   * prints.
   */
  lemma NoEscapeReportsAll(host: Host, ids: seq<int>, flags: Flags)
    requires flags.dryRun || forall i :: 0 <= i < |ids| ==> !Escapes(host, ids[i])
    ensures !flags.dryRun ==> Completed(host, ids) == ids
    ensures EachOutput(host, ids, flags) == Report(ids, flags.porcelain, flags.summarize)
  {
    if !flags.dryRun {
      NoneEscapeAll(host, ids);
    }
    CompletesAll(host, ids, flags);
  }

  /** A real run whose `i`-th upload is the first to let an exception out prints the lines of the IDs before it and stops. */
  lemma EscapeStops(host: Host, ids: seq<int>, flags: Flags, i: nat)
    requires !flags.dryRun
    requires i < |ids| && Escapes(host, ids[i]) && NoneEscape(host, ids[..i])
    ensures Completed(host, ids) == ids[..i]
    ensures EachOutput(host, ids, flags) == IdLines(ids[..i], flags.porcelain, flags.summarize)
  {
    CompletedAt(host, ids, i);
  }

  /**
   * As written, an escape on the first chosen ID ends a real run with
   * nothing printed: no line for any ID and no total, although the intended
   * run prints at least the total under `--summarize`.
   */
  lemma EscapeEndsRun(host: Host, records: map<int, Record>, allIds: seq<int>, flags: Flags)
    requires !flags.dryRun
    requires var ids := Selection(host, records, allIds, flags);
             ids != [] && Escapes(host, ids[0])
    ensures RunOutput(host, records, allIds, flags) == []
    ensures flags.summarize ==> Report(Selection(host, records, allIds, flags), flags.porcelain, flags.summarize) != []
  {
    var ids := Selection(host, records, allIds, flags);
    assert ids[..0] == [];
    EscapeStops(host, ids, flags, 0);
  }

  /** An attachment with a record is selected exactly under `--force`, provided `should_upload` accepts it. */
  lemma ForceDecidesReupload(host: Host, records: map<int, Record>, allIds: seq<int>, id: int, force: bool)
    requires id in allIds && ShouldUpload(host, id) && MetaOf(records, id) != map[]
    ensures id in Select(host, records, allIds, force) <==> force
  {
  }

  /**
   * A dry run prints the full report of the selection; a real run prints
   * the same unless an upload lets an exception out.
   */
  lemma DryRunReportsSame(host: Host, records: map<int, Record>, allIds: seq<int>, flags: Flags)
    requires var ids := Selection(host, records, allIds, flags);
             forall i :: 0 <= i < |ids| ==> !Escapes(host, ids[i])
    ensures RunOutput(host, records, allIds, flags.(dryRun := true)) == Report(Selection(host, records, allIds, flags), flags.porcelain, flags.summarize)
    ensures RunOutput(host, records, allIds, flags.(dryRun := true)) == RunOutput(host, records, allIds, flags.(dryRun := false))
  {
    var ids := Selection(host, records, allIds, flags);
    NoEscapeReportsAll(host, ids, flags.(dryRun := true));
    NoEscapeReportsAll(host, ids, flags.(dryRun := false));
  }

  /** With `--summarize` and without `--porcelain`, the only line is the total, which counts the processed IDs. */
  lemma SummaryIsTotal(ids: seq<int>)
    ensures Report(ids, false, true) == [TotalLine(|ids|)]
  {
  }

  /** With `--porcelain`, the command prints each processed ID once, in order, then the total under `--summarize`. */
  lemma PorcelainPrintsIds(ids: seq<int>, summarize: bool)
    ensures var lines := Report(ids, true, summarize);
            && |lines| == |ids| + (if summarize then 1 else 0)
            && (forall i :: 0 <= i < |ids| ==> lines[i] == IdLine(ids[i]))
            && (summarize ==> lines[|ids|] == TotalLine(|ids|))
  {
  }

  /** Uploading a list of IDs leaves the records of every other attachment alone. */
  lemma {:induction false} UploadAllTouchesOnlyIds(records: map<int, Record>, host: Host, ids: seq<int>, other: int)
    requires other !in ids
    ensures var after := UploadAll(records, host, ids);
            (other in after <==> other in records) && (other in records ==> after[other] == records[other])
    decreases |ids|
  {
    if ids != [] {
      var init := ids[..|ids| - 1];
      assert other !in init by {
        assert forall x :: x in init ==> x in ids;
      }
      UploadAllTouchesOnlyIds(records, host, init, other);
      UploadTouchesOnlyItsId(UploadAll(records, host, init), host, ids[|ids| - 1], other);
    }
  }

  /** When every upload fails, a real run writes nothing either. */
  lemma {:induction false} UploadAllFailing(records: map<int, Record>, host: Host, ids: seq<int>)
    requires forall i :: 0 <= i < |ids| ==> !UploadCall(host, AttachedFile(host, ids[i])).Uploaded?
    ensures UploadAll(records, host, ids) == records
    decreases |ids|
  {
    if ids != [] {
      var init := ids[..|ids| - 1];
      assert forall i :: 0 <= i < |init| ==> init[i] == ids[i];
      UploadAllFailing(records, host, init);
      FailedUploadWritesNothing(records, host, ids[|ids| - 1]);
    }
  }

  /** `--count=0` processes nothing; the default `-1` processes every selected ID. */
  lemma CountBounds(ids: seq<int>)
    ensures Truncate(ids, 0) == []
    ensures Truncate(ids, -1) == ids
  {
  }
}
