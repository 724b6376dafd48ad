/**
 * The batch script's decisions: for one file, the load check, the API-key
 * gate and the choice between the API and the fallback; for the whole
 * run, the `--fallback` flag and which directory entries count as images.
 * Directory creation, saving and timestamps are not modelled.
 */
module BatchScript {
  import opened Wrappers
  import opened Imaging
  import opened Remote
  import opened Fallback
  import opened EnhancedDryer

  /**
   * What `process_image(image_path, use_fallback)` did: its return value,
   * whether it constructed a dryer and called the API, the image it gave
   * the fallback (if any) and the image it saved (if any).
   */
  datatype FileRun = FileRun(success: bool, dryerBuilt: bool, apiCalled: bool,
                             fallbackInput: Option<Image>, saved: Option<Image>)

  /**
   * `load` is what `Image.open` produced; `remote` is the endpoint the
   * enhanced dryer talks to.
   */
  function ProcessFile(load: Result<Image, string>, apiKey: Option<string>, useFallback: bool, remote: Endpoint): (f: FileRun)
    ensures load.Failure? ==> f == FileRun(false, false, false, None, None)
    ensures load.Success? && !HasKey(apiKey) ==> f == FileRun(false, true, false, None, None)
    ensures load.Success? && HasKey(apiKey) && useFallback ==>
              !f.apiCalled && f.fallbackInput == Some(load.value) && f.saved == Some(FallbackImage(load.value))
    ensures load.Success? && HasKey(apiKey) && !useFallback ==>
              && f.apiCalled
              && (f.fallbackInput.Some? <==> Dry(Defaults, apiKey, load.value, remote).result.None?)
              && f.saved == (if Dry(Defaults, apiKey, load.value, remote).result.Some?
                             then Dry(Defaults, apiKey, load.value, remote).result
                             else Some(FallbackImage(load.value)))
    ensures f.success <==> f.saved.Some?
    ensures load.Success? ==> f.dryerBuilt
    ensures f.fallbackInput.Some? ==> load.Success? && f.fallbackInput == Some(load.value)
  {
    match load
    case Failure(_) => FileRun(false, false, false, None, None)
    case Success(image) =>
      if !HasKey(apiKey) then FileRun(false, true, false, None, None)
      else if useFallback then
        FileRun(true, true, false, Some(image), Some(FallbackImage(image)))
      else
        var api := Dry(Defaults, apiKey, image, remote).result;
        if api.Some? then FileRun(true, true, true, None, api)
        else FileRun(true, true, true, Some(image), Some(FallbackImage(image)))
  }

  /**
   * Because the fallback always produces an image, a file succeeds exactly
   * when it loads and a key is set, whatever the endpoint does.
   */
  lemma SuccessIffLoadedWithKey(load: Result<Image, string>, apiKey: Option<string>, useFallback: bool, remote: Endpoint)
    ensures ProcessFile(load, apiKey, useFallback, remote).success <==> load.Success? && HasKey(apiKey)
  {
  }

  /** Without `--fallback`, the fallback runs exactly when no API attempt succeeds. */
  lemma FallbackIffEveryAttemptFails(image: Image, apiKey: Option<string>, remote: Endpoint)
    requires HasKey(apiKey)
    ensures ProcessFile(Success(image), apiKey, false, remote).fallbackInput.Some?
            <==> forall j :: 0 <= j < Defaults.maxRetries ==> !SucceedsAt(Preprocess(image), remote, j)
  {
    ResultIffSomeAttemptSucceeds(Defaults, apiKey, image, remote);
  }

  const ImageExtensions: seq<string> := [".png", ".jpg", ".jpeg", ".bmp", ".gif"]

  /** ASCII lower-casing of one character. */
  function LowerChar(c: char): char
  {
    if 'A' <= c <= 'Z' then (c as int + 32) as char else c
  }

  function Lower(s: string): (r: string)
    ensures |r| == |s|
    ensures forall i :: 0 <= i < |s| ==> r[i] == LowerChar(s[i])
  {
    if |s| == 0 then [] else [LowerChar(s[0])] + Lower(s[1..])
  }

  predicate EndsWith(s: string, suffix: string)
  {
    |suffix| <= |s| && s[|s| - |suffix|..] == suffix
  }

  /** `f.lower().endswith(('.png', '.jpg', '.jpeg', '.bmp', '.gif'))`. */
  predicate IsImageFile(name: string)
  {
    exists e :: e in ImageExtensions && EndsWith(Lower(name), e)
  }

  /** The image files of a directory listing, each as often as it is listed. */
  function SelectImages(names: seq<string>): (r: seq<string>)
    ensures forall f :: multiset(r)[f] == (if IsImageFile(f) then multiset(names)[f] else 0)
    ensures forall k :: 0 <= k < |r| ==> IsImageFile(r[k])
  {
    if |names| == 0 then []
    else
      var rest := SelectImages(names[1..]);
      assert names == [names[0]] + names[1..];
      if IsImageFile(names[0]) then [names[0]] + rest else rest
  }

  predicate FallbackRequested(argv: seq<string>)
  {
    "--fallback" in argv
  }

  datatype BatchPlan = MissingDirectory | NoImages | ProcessAll(files: seq<string>)

  /**
   * What `main` decides before processing: the fallback flag, then stop if
   * the directory is missing or holds no image file, else the files to process.
   */
  function PlanBatch(argv: seq<string>, dirExists: bool, listing: seq<string>): (r: (bool, BatchPlan))
    ensures r.0 <==> "--fallback" in argv
    ensures !dirExists ==> r.1 == MissingDirectory
    ensures dirExists && (forall f :: f in listing ==> !IsImageFile(f)) ==> r.1 == NoImages
    ensures dirExists && (exists f :: f in listing && IsImageFile(f)) ==> r.1 == ProcessAll(SelectImages(listing))
    ensures r.1.ProcessAll? ==>
              && dirExists
              && |r.1.files| > 0
              && (forall f :: f in r.1.files <==> f in listing && IsImageFile(f))
  {
    var useFallback := FallbackRequested(argv);
    if !dirExists then (useFallback, MissingDirectory)
    else
      var files := SelectImages(listing);
      if |files| == 0 then (useFallback, NoImages)
      else (useFallback, ProcessAll(files))
  }

  lemma {:induction false} LowerIdempotent(s: string)
    ensures Lower(Lower(s)) == Lower(s)
  {
    var once := Lower(s);
    forall i | 0 <= i < |s| ensures Lower(once)[i] == once[i] {
    }
  }

  /** The filter ignores case: a name and its lower-cased form are selected alike. */
  lemma ImageFilterIgnoresCase(name: string)
    ensures IsImageFile(Lower(name)) <==> IsImageFile(name)
  {
    LowerIdempotent(name);
  }

  /** Any name ending in ".JPG" is selected: the extension test ignores case. */
  lemma {:induction false} UpperCaseExtensionSelected(stem: string)
    ensures IsImageFile(stem + ".JPG")
  {
    var name := stem + ".JPG";
    var low := Lower(name);
    var n := |stem|;
    assert name[n] == '.' && name[n + 1] == 'J' && name[n + 2] == 'P' && name[n + 3] == 'G';
    assert low[n] == '.' && low[n + 1] == 'j' && low[n + 2] == 'p' && low[n + 3] == 'g';
    assert low[|low| - 4..] == ".jpg";
    assert ".jpg" in ImageExtensions && EndsWith(low, ".jpg");
  }

  /** A name equal to an extension without its dot is not selected. */
  lemma BareExtensionNotSelected()
    ensures !IsImageFile("gif")
  {
    var low := Lower("gif");
    assert low == "gif";
  }

}
