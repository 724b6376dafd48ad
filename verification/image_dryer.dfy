/**
 * The single-shot dryer: the same preprocessing as the enhanced dryer,
 * one request with a fixed engine, prompt pair and parameters, and any
 * failure (a non-200 status, an undecodable artifact, an exception)
 * turned into None. It never retries and never sleeps, and it sends the
 * request whether or not an API key is configured.
 */
module ImageDryer {
  import opened Wrappers
  import opened Imaging
  import opened Prompts
  import opened Remote
  import EnhancedDryer

  const EngineId := "stable-diffusion-xl-1024-v1-0"

  /** The prompt pair written out in the single-shot request body. */
  const FixedPrompts: seq<TextPrompt> := [
    TextPrompt("A completely dry version of this item, photorealistic, detailed texture, no water or moisture", 1),
    TextPrompt("wet, moist, damp, water droplets, puddles, stains", -1)
  ]

  /** image_strength 0.35, cfg_scale 7, samples 1, steps 30. */
  const FixedParams := Params(35, 7, 1, 30)

  function FixedRequest(image: Image): Request
  {
    Request(EngineId, FixedPrompts, FixedParams, Preprocess(image))
  }

  /**
   * `process_image`: one attempt against `remote`; the decoded first
   * artifact of a 200 reply is the only way to get an image back.
   */
  function ProcessImage(image: Image, remote: Request -> Outcome): (run: EnhancedDryer.Run)
    ensures run.requests == [FixedRequest(image)] && run.sleeps == []
    ensures run.result.Some? <==> Classify(remote(FixedRequest(image))) == Succeeded
    ensures run.result.Some? ==> run.result == remote(FixedRequest(image)).artifact
  {
    var req := FixedRequest(image);
    var o := remote(req);
    if o.Reply? && o.status == 200 && o.artifact.Some? then EnhancedDryer.Run(o.artifact, [req], [])
    else EnhancedDryer.Run(None, [req], [])
  }

  /**
   * The fixed request is the enhanced dryer's first attempt: its first
   * engine, prompt variation 0 and the XL parameter set.
   */
  lemma FixedRequestIsFirstAttempt(image: Image)
    ensures FixedRequest(image) == EnhancedDryer.Plan(Preprocess(image), 0)
    ensures FixedPrompts == Variations()[0]
    ensures FixedParams == XlParams && EngineId == Engines[0]
  {
    XlEngineUsesXlParams();
  }

  /**
   * Given a key, whenever the single-shot dryer gets an image, the enhanced
   * dryer facing the same endpoint returns that image from its first attempt.
   */
  lemma EnhancedAgreesOnSuccess(apiKey: Option<string>, image: Image, remote: Request -> Outcome)
    requires HasKey(apiKey)
    requires ProcessImage(image, remote).result.Some?
    ensures EnhancedDryer.Dry(EnhancedDryer.Defaults, apiKey, image, (i: nat, req: Request) => remote(req))
            == EnhancedDryer.Run(ProcessImage(image, remote).result, [FixedRequest(image)], [])
  {
    FixedRequestIsFirstAttempt(image);
  }
}
