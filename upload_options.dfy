/**
 * The options the plugin hands to the Cloudinary upload call: the public ID
 * is the file's base name with a trailing `.jpeg`, `.jpg` or `.png` removed,
 * under the configured folder (api.php:170-173 and the `cumulus/upload_options`
 * filter at cumulus.php:233-246).
 */
module UploadOptions {
  import opened PhpValues

  /**
   * The suffixes the filter's patterns `/\.jpeg$/`, `/\.jpg$/` and `/\.png$/`
   * match, in the order the filter applies them. Matching is case-sensitive.
   */
  const Extensions: seq<string> := [".jpeg", ".jpg", ".png"]

  predicate EndsWith(s: string, suffix: string) {
    |suffix| <= |s| && s[|s| - |suffix|..] == suffix
  }

  /**
   * `preg_replace('/<suffix>$/', '', s)` for a suffix that does not end in a
   * newline: PCRE's `$` matches at the very end of the subject and also just
   * before a final newline, so a suffix followed by one `"\n"` goes too.
   */
  function StripSuffix(s: string, suffix: string): string
    requires suffix != [] && suffix[|suffix| - 1] != '\n'
  {
    if EndsWith(s, suffix) then s[..|s| - |suffix|]
    else if EndsWith(s, suffix + "\n") then s[..|s| - |suffix| - 1] + "\n"
    else s
  }

  /**
   * What `StripSuffix` removes: the suffix at the very end, else the suffix
   * just before a final newline (which stays), else nothing.
   */
  lemma StripSuffixSpec(s: string, suffix: string)
    requires suffix != [] && suffix[|suffix| - 1] != '\n'
    ensures var r := StripSuffix(s, suffix);
            && (EndsWith(s, suffix) ==> r + suffix == s)
            && (!EndsWith(s, suffix) && EndsWith(s, suffix + "\n") ==>
                  |r| >= 1 && r[..|r| - 1] + suffix + "\n" == s && r[|r| - 1] == '\n')
            && (!EndsWith(s, suffix) && !EndsWith(s, suffix + "\n") ==> r == s)
  {
    var r := StripSuffix(s, suffix);
    if EndsWith(s, suffix) {
      assert s[..|s| - |suffix|] + s[|s| - |suffix|..] == s;
    } else if EndsWith(s, suffix + "\n") {
      var n := |s| - |suffix| - 1;
      assert r[..|r| - 1] == s[..n];
      assert s[..n] + s[n..] == s;
    }
  }

  /** Every suffix in `Extensions` is a valid argument of `StripSuffix`. */
  predicate ValidSuffixes(exts: seq<string>) {
    forall i :: 0 <= i < |exts| ==> exts[i] != [] && exts[i][|exts[i]| - 1] != '\n'
  }

  /** The suffixes of `exts` stripped one after the other, first to last. */
  function StripAll(s: string, exts: seq<string>): string
    requires ValidSuffixes(exts)
    decreases |exts|
  {
    if exts == [] then s
    else StripSuffix(StripAll(s, exts[..|exts| - 1]), exts[|exts| - 1])
  }

  /** The base name with the image extensions removed (cumulus.php:235-238). */
  function StripExtensions(s: string): string {
    StripAll(s, Extensions)
  }

  lemma StripExtensionsUnfold(s: string)
    ensures StripExtensions(s) == StripSuffix(StripSuffix(StripSuffix(s, ".jpeg"), ".jpg"), ".png")
  {
    var e2: seq<string> := [".jpeg", ".jpg"];
    var e1: seq<string> := [".jpeg"];
    assert Extensions[..|Extensions| - 1] == e2 && Extensions[|Extensions| - 1] == ".png";
    assert e2[..|e2| - 1] == e1 && e2[|e2| - 1] == ".jpg";
    assert e1[..|e1| - 1] == [] && e1[|e1| - 1] == ".jpeg";
    calc {
      StripExtensions(s);
      StripSuffix(StripAll(s, e2), ".png");
      StripSuffix(StripSuffix(StripAll(s, e1), ".jpg"), ".png");
      StripSuffix(StripSuffix(StripSuffix(StripAll(s, []), ".jpeg"), ".jpg"), ".png");
    }
  }

  /** A string whose `k`-th character from the end differs from the suffix's does not end with it. */
  lemma Mismatch(s: string, suffix: string, k: nat)
    requires 1 <= k <= |suffix| && k <= |s| && s[|s| - k] != suffix[|suffix| - k]
    ensures !EndsWith(s, suffix)
  {
    if |suffix| <= |s| {
      assert s[|s| - |suffix|..][|suffix| - k] == s[|s| - k];
    }
  }

  /** A name that ends in a suffix loses exactly that suffix. */
  lemma StripSuffixOf(b: string, suffix: string)
    requires suffix != [] && suffix[|suffix| - 1] != '\n'
    ensures StripSuffix(b + suffix, suffix) == b
  {
    var s := b + suffix;
    assert s[|s| - |suffix|..] == suffix && s[..|s| - |suffix|] == b;
  }

  /** A name is kept exactly when it ends neither in the suffix nor in the suffix plus a newline. */
  lemma StripSuffixMiss(s: string, suffix: string)
    requires suffix != [] && suffix[|suffix| - 1] != '\n'
    ensures StripSuffix(s, suffix) == s <==> !EndsWith(s, suffix) && !EndsWith(s, suffix + "\n")
  {
    if EndsWith(s, suffix) {
      assert |StripSuffix(s, suffix)| < |s|;
    } else if EndsWith(s, suffix + "\n") {
      assert |StripSuffix(s, suffix)| < |s|;
    }
  }

  /** A name that differs from a suffix at its `k`-th character from the end, and does not end in a newline, is kept. */
  lemma StripSuffixMissAt(s: string, suffix: string, k: nat)
    requires suffix != [] && suffix[|suffix| - 1] != '\n'
    requires 1 <= k <= |suffix| && k <= |s| && s[|s| - k] != suffix[|suffix| - k] && s[|s| - 1] != '\n'
    ensures StripSuffix(s, suffix) == s
  {
    Mismatch(s, suffix, k);
    Mismatch(s, suffix + "\n", 1);
    StripSuffixMiss(s, suffix);
  }

  /** A name ending in `.png` loses exactly that suffix. */
  lemma StripExtensionsPng(b: string)
    ensures StripExtensions(b + ".png") == b
  {
    var s := b + ".png";
    StripExtensionsUnfold(s);
    assert s[|s| - 1] == 'g' && s[|s| - 2] == 'n';
    StripSuffixMissAt(s, ".jpeg", 2);
    StripSuffixMissAt(s, ".jpg", 2);
    StripSuffixOf(b, ".png");
  }

  /**
   * A name ending in `.jpg` loses that suffix, and then a `.png` before it,
   * since `.png` is tried after `.jpg`: "a.png.jpg" becomes "a".
   */
  lemma StripExtensionsJpg(b: string)
    ensures StripExtensions(b + ".jpg") == StripSuffix(b, ".png")
  {
    var s := b + ".jpg";
    StripExtensionsUnfold(s);
    assert s[|s| - 1] == 'g' && s[|s| - 2] == 'p';
    StripSuffixMissAt(s, ".jpeg", 2);
    StripSuffixOf(b, ".jpg");
  }

  /** A name ending in `.jpeg` loses that suffix, then possibly `.jpg`, then `.png`. */
  lemma StripExtensionsJpeg(b: string)
    ensures StripExtensions(b + ".jpeg") == StripSuffix(StripSuffix(b, ".jpg"), ".png")
  {
    StripExtensionsUnfold(b + ".jpeg");
    var s := b + ".jpeg";
    assert s[..|s| - 5] == b;
  }

  /** A name that ends in none of the suffixes (nor in one followed by a newline) is kept as it is. */
  lemma StripExtensionsOther(s: string)
    requires forall e :: e in Extensions ==> !EndsWith(s, e) && !EndsWith(s, e + "\n")
    ensures StripExtensions(s) == s
  {
    StripExtensionsUnfold(s);
    assert ".jpeg" in Extensions && ".jpg" in Extensions && ".png" in Extensions;
  }

  /** Matching is case-sensitive. */
  lemma StripExtensionsCaseSensitive(s: string)
    requires s == "cat.JPG"
    ensures StripExtensions(s) == s
  {
    StripExtensionsUnfold(s);
    assert s[|s| - 1] == 'G';
  }

  /** PCRE's `$` also matches just before a final newline. */
  lemma StripExtensionsBeforeNewline(s: string)
    requires s == "cat.jpg\n"
    ensures StripExtensions(s) == "cat\n"
  {
    StripExtensionsUnfold(s);
    assert s[|s| - 1] == '\n' && s[|s| - 3] == 'p';
    Mismatch(s, ".jpeg", 1);
    Mismatch(s, ".jpeg\n", 3);
    assert StripSuffix(s, ".jpeg") == s;
    Mismatch(s, ".jpg", 1);
    assert EndsWith(s, ".jpg\n") && s[..|s| - 5] == "cat";
    var t := StripSuffix(s, ".jpg");
    assert t == "cat\n";
    assert t[|t| - 2] == 't';
    Mismatch(t, ".png", 1);
    Mismatch(t, ".png\n", 2);
  }

  /** The public ID the filter leaves behind: stripped, then under `folder` when `folder` is truthy. */
  function PublicId(name: string, folder: string): (id: string)
    ensures TruthyString(folder) ==> id == folder + "/" + StripExtensions(name)
    ensures !TruthyString(folder) ==> id == StripExtensions(name)
  {
    var stripped := StripExtensions(name);
    if TruthyString(folder) then folder + "/" + stripped else stripped
  }

  /** The options after the `cumulus/upload_options` filter: only `public_id` changes. */
  function RewrittenOptions(options: map<string, Value>, folder: string): (r: map<string, Value>)
    ensures r.Keys == options.Keys + {"public_id"}
    ensures forall k :: k in options && k != "public_id" ==> r[k] == options[k]
    ensures r["public_id"] == Str(PublicId(ToStr(Get(options, "public_id")), folder))
  {
    options["public_id" := Str(PublicId(ToStr(Get(options, "public_id")), folder))]
  }

  lemma StripAllStep(s: string, i: nat)
    requires i < |Extensions|
    ensures ValidSuffixes(Extensions[..i]) && ValidSuffixes(Extensions[..i + 1])
    ensures StripAll(s, Extensions[..i + 1]) == StripSuffix(StripAll(s, Extensions[..i]), Extensions[i])
  {
    assert Extensions[..i + 1][..i] == Extensions[..i];
  }

  /**
   * The filter as the plugin runs it: one `preg_replace` per extension on the
   * public ID, then the folder prefix when the folder is truthy.
   */
  method RewriteOptions(options: map<string, Value>, folder: string) returns (r: map<string, Value>)
    ensures r == RewrittenOptions(options, folder)
  {
    var publicId := ToStr(Get(options, "public_id"));
    ghost var name := publicId;
    for i := 0 to |Extensions|
      invariant ValidSuffixes(Extensions[..i])
      invariant publicId == StripAll(name, Extensions[..i])
    {
      StripAllStep(name, i);
      publicId := StripSuffix(publicId, Extensions[i]);
    }
    assert Extensions[..|Extensions|] == Extensions;
    assert publicId == StripExtensions(name);
    if TruthyString(folder) {
      publicId := folder + "/" + publicId;
    }
    assert publicId == PublicId(name, folder);
    r := options["public_id" := Str(publicId)];
  }
}
