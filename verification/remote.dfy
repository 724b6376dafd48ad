/**
 * What one image-to-image request carries and what can come back from
 * it. The HTTP exchange itself (headers, JSON and base64 bodies, the
 * 60-second timeout) is not modelled; a request is described by the
 * values the dryer chooses for it, and the endpoint is an oracle.
 */
module Remote {
  import opened Wrappers
  import opened Imaging
  import opened Prompts

  /**
   * Generation parameters. `strengthPercent` is `image_strength` in
   * hundredths (0.35 is 35), so the float constants are exact.
   */
  datatype Params = Params(strengthPercent: nat, cfgScale: nat, samples: nat, steps: nat)

  /** One request: engine name, prompt list, parameters and init image. */
  datatype Request = Request(engine: string, prompts: seq<TextPrompt>, params: Params, initImage: Image)

  /**
   * What an attempt produced: an HTTP reply, whose first artifact decodes
   * to an image or fails to (`None`), or an exception raised while sending.
   */
  datatype Outcome = Reply(status: int, artifact: Option<Image>) | Raised(reason: string)

  /** The classes the retry loop tells apart. */
  datatype Kind = Succeeded | RateLimited | ServerError | OtherStatus | Exception

  const XlEngine := "stable-diffusion-xl-1024-v1-0"

  /** The engines the enhanced dryer tries, in order. */
  const Engines: seq<string> := [XlEngine, "stable-diffusion-v1-5", "stable-diffusion-512-v2-1"]

  const XlParams := Params(35, 7, 1, 30)
  const BaseParams := Params(40, 8, 1, 25)

  /** Whether `t` occurs in `s` as a contiguous substring (Python's `in`). */
  predicate Contains(s: string, t: string)
  {
    exists i :: 0 <= i <= |s| && OccursAt(s, t, i)
  }

  predicate OccursAt(s: string, t: string, i: nat)
  {
    i + |t| <= |s| && s[i..i + |t|] == t
  }

  /** An API key counts only when it is present and non-empty. */
  predicate HasKey(apiKey: Option<string>)
  {
    apiKey.Some? && |apiKey.value| > 0
  }

  /**
   * Parameters are a function of the engine name alone: any name
   * containing "xl" gets the XL set, every other name the base set.
   */
  function ParamsFor(engine: string): Params
  {
    if Contains(engine, "xl") then XlParams else BaseParams
  }

  /** The two parameter sets, and that a name selects exactly one of them. */
  lemma ParamsByName(engine: string)
    ensures ParamsFor(engine).samples == 1
    ensures Contains(engine, "xl") <==> ParamsFor(engine) == XlParams
    ensures !Contains(engine, "xl") <==> ParamsFor(engine) == BaseParams
    ensures XlParams.strengthPercent == 35 && XlParams.cfgScale == 7 && XlParams.steps == 30
    ensures BaseParams.strengthPercent == 40 && BaseParams.cfgScale == 8 && BaseParams.steps == 25
  {
  }

  /**
   * Classifies an outcome the way the retry loop branches on it. A 200
   * whose artifact cannot be decoded raises inside the same `try`, so it
   * falls in with the exceptions.
   */
  function Classify(o: Outcome): (k: Kind)
    ensures k == Succeeded <==> o.Reply? && o.status == 200 && o.artifact.Some?
    ensures k == RateLimited <==> o.Reply? && o.status == 429
    ensures k == ServerError <==> o.Reply? && o.status >= 500
    ensures k == OtherStatus <==> o.Reply? && o.status != 200 && o.status != 429 && o.status < 500
    ensures k == Exception <==> o.Raised? || (o.status == 200 && o.artifact.None?)
  {
    match o
    case Raised(_) => Exception
    case Reply(status, artifact) =>
      if status == 200 then (if artifact.Some? then Succeeded else Exception)
      else if status == 429 then RateLimited
      else if status >= 500 then ServerError
      else OtherStatus
  }

  /** A name without the letter 'x' cannot contain "xl". */
  lemma NoXNoXl(s: string)
    requires 'x' !in s
    ensures !Contains(s, "xl")
  {
    forall i | 0 <= i <= |s| ensures !OccursAt(s, "xl", i) {
      if i + 2 <= |s| {
        assert s[i..i + 2][0] == s[i];
      }
    }
  }

  lemma XlEngineUsesXlParams()
    ensures ParamsFor(Engines[0]) == XlParams
  {
    var e := Engines[0];
    assert OccursAt(e, "xl", 17);
  }

  lemma SecondEngineUsesBaseParams()
    ensures ParamsFor(Engines[1]) == BaseParams
  {
    var e := Engines[1];
    assert 'x' !in e;
    NoXNoXl(e);
  }

  lemma ThirdEngineUsesBaseParams()
    ensures ParamsFor(Engines[2]) == BaseParams
  {
    var e := Engines[2];
    assert 'x' !in e;
    NoXNoXl(e);
  }

  /** Only the first engine is an XL engine. */
  lemma EngineParams()
    ensures ParamsFor(Engines[0]) == XlParams
    ensures ParamsFor(Engines[1]) == BaseParams
    ensures ParamsFor(Engines[2]) == BaseParams
  {
    XlEngineUsesXlParams();
    SecondEngineUsesBaseParams();
    ThirdEngineUsesBaseParams();
  }
}
