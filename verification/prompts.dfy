/**
 * The fixed bank of prompt pairs the enhanced dryer rotates through.
 * Each variation is the two-element `text_prompts` list sent to the
 * remote endpoint: the desired look with weight 1, then the look to
 * avoid with weight -1.
 */
module Prompts {

  datatype TextPrompt = TextPrompt(text: string, weight: int)

  /** A positive prompt followed by the negative prompt that opposes it. */
  predicate IsPromptPair(p: seq<TextPrompt>)
  {
    |p| == 2 && p[0].weight == 1 && p[1].weight == -1
  }

  /** The standard drying prompt. */
  const Standard: seq<TextPrompt> := [
    TextPrompt("A completely dry version of this item, photorealistic, detailed texture, no water or moisture", 1),
    TextPrompt("wet, moist, damp, water droplets, puddles, stains", -1)
  ]

  /** More emphasis on dryness. */
  const BoneDry: seq<TextPrompt> := [
    TextPrompt("Bone dry, completely dried out, arid, desert-like dryness, crisp texture, no moisture whatsoever", 1),
    TextPrompt("wet, damp, moist, humidity, water, liquid, droplets, condensation", -1)
  ]

  /** Focus on texture and detail. */
  const Texture: seq<TextPrompt> := [
    TextPrompt("Dry texture, detailed fabric, no moisture, sun-dried appearance, crisp details", 1),
    TextPrompt("wet appearance, water stains, dampness, moisture", -1)
  ]

  /** The variations in the order attempts use them. */
  function Variations(): (r: seq<seq<TextPrompt>>)
    ensures |r| == 3
    ensures forall i :: 0 <= i < |r| ==> IsPromptPair(r[i])
  {
    assert IsPromptPair(Standard) && IsPromptPair(BoneDry) && IsPromptPair(Texture);
    [Standard, BoneDry, Texture]
  }
}
