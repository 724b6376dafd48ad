# agent-all-dry — a Dafny model of the drying core

agent-all-dry is a chat assistant that "dries" photographs: it takes a
picture of a wet scene and asks a hosted image-to-image diffusion service to
return the same scene dry. This project models the decision logic of that
core and proves properties about it:

- `Imaging`: the image header (mode, width, height) and the preprocessing
  step. The step converts to RGB and shrinks the image so that its longer
  side is 1024 pixels, keeping the aspect ratio.
- `Prompts`: the bank of three weighted prompt pairs. Each pair has a
  positive "dry" prompt and a negative "wet" prompt.
- `Remote`: the request sent to the generation service, and the engine
  list with its per-engine parameters. It also classifies every reply as
  success, rate limit (429), server error (5xx, any status ≥ 500), other status, or raised
  exception.
- `EnhancedDryer`: the enhanced dryer. It has an API-key gate, preprocesses
  once, and then makes up to `max_retries` attempts that rotate through
  engines and prompt variations. Between attempts it backs off linearly,
  with an extra triple wait after a 429. `EnhancedDryer.ProcessImage` is the
  loop. `EnhancedDryer.Attempts` is its recursive reference definition.
- `Fallback`: the local fallback effect. It applies a brightness table
  (×1.2) and a contrast table (×1.1 around 128) to every channel. It then
  rewrites every pixel once, x outer and y inner, through the saturation
  step.
- `ImageDryer`: the older single-shot dryer. It sends one request with
  fixed parameters and uses no retry.
- `Chat`: assembly of the message list sent to the chat model. The system
  prompt comes first, then the earlier turns as human messages, then the
  new message.
- `DryingAgent`: one conversation turn and reset. A turn updates the
  history and, when the chat model answers, runs the dryer on the image.
- `BatchScript`: the batch tool. It covers the key gate, the fallback
  choice, the `--fallback` flag, and the case-insensitive image-extension
  filter.

The remote service, the chat model and the saturation step are parameters
(functions). The model never calls them for real. A clock sleep is modelled
as a value appended to the run's list of delays.

Floating-point values are modelled as exact rationals:

- The resize factor `1024 / longer` is applied as
  `floor(side * 1024 / longer)`.
- The brightness table `int(p * 1.2)` becomes `(12 p) / 10`, truncated.
- The contrast table `int(128 + 1.1 * (p - 128))` becomes
  `(11 p - 128) / 10`, truncated toward zero.
- `image_strength` 0.35 and 0.4 are stored in hundredths.

## Model

| member | source | states |
|---|---|---|
| Imaging.Preprocess | enhanced_image_dryer.py:35-48 | The result is RGB. An image whose longer side is at most 1024 keeps its size. A larger one gets a longer side of exactly 1024, and each side is the floor of its scaled value. The image never grows. |
| Imaging.PreprocessIdempotent | enhanced_image_dryer.py:35-48 | Preprocessing an already preprocessed image changes nothing, so preprocessing once before the retry loop loses nothing. |
| Imaging.ThinImageLosesItsWidth | enhanced_image_dryer.py:43-46 | A 1×2000 image becomes 0×1024 because `int()` truncates: the source never clamps a side to at least one pixel. |
| Imaging.WideImageExample | enhanced_image_dryer.py:41-46 | A 2000×500 image is scaled to 1024×256, keeping the 4:1 aspect ratio. |
| Prompts.Variations | enhanced_image_dryer.py:50-87 | There are exactly three variations. Each is a pair of a weight-1 "dry" prompt and a weight −1 "wet" prompt. |
| Remote.ParamsByName | enhanced_image_dryer.py:126-143 | An engine whose id contains "xl" gets strength 0.35, cfg 7, 1 sample and 30 steps. Any other engine gets 0.4, 8, 1 and 25. |
| Remote.EngineParams | enhanced_image_dryer.py:26-30 | Of the three configured engines, only the first is treated as the XL engine. The v1.5 and 512-v2.1 engines get the base parameters. |
| Remote.Classify | enhanced_image_dryer.py:149-171 | A reply counts as a success only when it is a 200 that carries an artifact. 429, 5xx (any status ≥ 500) and other statuses are told apart. A 200 whose artifact cannot be decoded counts as an exception. |
| EnhancedDryer.ProcessImage | enhanced_image_dryer.py:89-180 | Without a key, the method returns at once with no request and no sleep. Otherwise the retry loop gives exactly the reference run (`Dry`). Every request carries the image preprocessed once. |
| EnhancedDryer.AttemptsRequests | enhanced_image_dryer.py:96-111 | Each attempt's engine and prompt pair are chosen round-robin by attempt number. The image sent is the same every time. |
| EnhancedDryer.FirstSuccessReturnsAtOnce | enhanced_image_dryer.py:149-157 | When attempt k is the first success, the run returns that artifact after k+1 requests, with the backoff of the k failures before it. |
| EnhancedDryer.ExhaustedAfterMaxRetries | enhanced_image_dryer.py:106-180 | If no attempt succeeds, the result is None after exactly max_retries requests. |
| EnhancedDryer.ResultIffSomeAttemptSucceeds | enhanced_image_dryer.py:89-180 | With a key, the dryer returns an image if and only if some attempt within the budget succeeds. The image is the artifact of the first one that does. |
| EnhancedDryer.SleepsAfterFailure | enhanced_image_dryer.py:159-177 | After a failed attempt there is one wait per applicable rule, at most two. A 429 gives a first wait of 3×delay. Any attempt but the last ends with a wait of delay×(attempt+1). The result is also the step the reference run takes. |
| EnhancedDryer.StandardBackoffBefore | enhanced_image_dryer.py:173-177 | When no attempt is rate-limited, the waits before a success at attempt k are delay×1, …, delay×k. |
| EnhancedDryer.StandardBackoffToEnd | enhanced_image_dryer.py:173-177 | When nothing succeeds or is rate-limited, the waits are delay×1 … delay×(max_retries−1). There is no wait after the last attempt. |
| EnhancedDryer.RateLimitedBackoff | enhanced_image_dryer.py:162-177 | When every attempt is rate-limited, the waits alternate 3×delay with the linear delay. The final 429 still costs a 3×delay wait. |
| EnhancedDryer.TwoServerErrorsThenSuccess | enhanced_image_dryer.py:165-177 | Two 500s followed by a success give the third attempt's image, after waits of 2 s and 4 s. |
| EnhancedDryer.ImmediateSuccess | enhanced_image_dryer.py:149-157 | A first-attempt success sends one request and never sleeps. |
| EnhancedDryer.AlwaysRateLimited | enhanced_image_dryer.py:159-180 | A service that always answers 429 gives None after max_retries requests and 2·max_retries−1 waits: 3×delay after every attempt, with delay×1, delay×2, … between them. |
| EnhancedDryer.NeverRateLimitedExhaustion | enhanced_image_dryer.py:165-180 | When every attempt fails without a 429, the result is None after max_retries requests, with waits delay×1 … delay×(max_retries−1). |
| EnhancedDryer.PlanRotation | enhanced_image_dryer.py:106-111 | Attempt i+3 uses the same engine, prompts and parameters as attempt i. |
| EnhancedDryer.EachEngineOnceInOrder | enhanced_image_dryer.py:26-33 | With the defaults, the three attempts try the XL, v1.5 and 512-v2.1 engines in that order, each with its own prompt variation. |
| Fallback.BrightnessLutBounds | enhanced_image_dryer.py:209-210 | The brightness table never darkens a channel and never exceeds 255. |
| Fallback.BrightnessLutMonotone | enhanced_image_dryer.py:209-210 | The brightness table preserves the order of channel values. |
| Fallback.ContrastLutMidpoint | enhanced_image_dryer.py:212-213 | The contrast table keeps 128 fixed and never exceeds 255. |
| Fallback.ContrastLutMonotone | enhanced_image_dryer.py:212-213 | The contrast table preserves the order of channel values. |
| Fallback.ContrastLutBelowZero | enhanced_image_dryer.py:212-213 | The contrast table has no lower clamp. It maps 0 to −12 and 10 to −1, and 11 is the first input that maps to 0. |
| Fallback.ToneChannelRange | enhanced_image_dryer.py:209-213 | After both tables, every 8-bit channel lies between −12 and 255. |
| Fallback.LoopOrderExactlyOnce | enhanced_image_dryer.py:219-226 | The nested pixel loop, x outer and y inner, visits every (x, y) in the image exactly once and nothing outside it. |
| Fallback.FallbackImage | enhanced_image_dryer.py:192-201 | The fallback keeps the image's dimensions and returns it in RGB mode. |
| Fallback.ApplyFallback | enhanced_image_dryer.py:192-228 | Every output pixel is the saturation step applied to the toned input pixel at the same position. Writes happen x outer, y inner, into a new array distinct from the input, and the header keeps the dimensions. |
| ImageDryer.ProcessImage | src/image_dryer.py:33-87 | The single-shot dryer sends exactly one request and never waits. It returns an image exactly when the reply is a 200 with an artifact. |
| ImageDryer.FixedRequestIsFirstAttempt | src/image_dryer.py:53-69 | The single-shot request is the enhanced dryer's first attempt: the XL engine, the first prompt variation and the XL parameters. |
| ImageDryer.EnhancedAgreesOnSuccess | src/image_dryer.py:72-83 | When the single request succeeds and a key is set, the enhanced dryer returns the same image after one request and no wait. |
| Chat.AsHuman | src/chat_model.py:38-40 | Each earlier turn becomes one human message with the same text, in the same order. |
| Chat.Assemble | src/chat_model.py:36-42 | The message list is the system prompt, then one human message per history entry, then the new message. A missing or empty history gives just the system prompt and the message. |
| Chat.NoneAndEmptyHistoryAgree | src/chat_model.py:36-42 | Passing no history and passing an empty history send the same messages. |
| DryingAgent.ProcessMessage | src/drying_agent.py:30-59 | On a reply, the turn appends the user and assistant entries and returns both. It runs the dryer once exactly when an image was given, and stores that result. On an exception, it returns one "Error: …" entry and no image, and leaves the history untouched. |
| DryingAgent.Reset | src/drying_agent.py:61-65 | Reset clears the history and both images and keeps the system prompt. |
| DryingAgent.ResetStartsOver | src/drying_agent.py:61-65 | After a reset, the agent is indistinguishable from a freshly built one. |
| DryingAgent.TurnKeepsAlternation | src/drying_agent.py:47-49 | The history always alternates user and assistant entries, starting with the user. |
| DryingAgent.FailedTurnLeavesNoTrace | src/drying_agent.py:36-59 | After a turn whose chat call raised, the next turn sends the chat model exactly what it would have sent had the failed turn never happened. |
| DryingAgent.ConverseHistory | src/drying_agent.py:42-49 | After n answered text-only turns, the earlier history is kept as a prefix and 2n entries are added. The user's k-th message sits at offset 2k after the old history. No processed image is left behind. |
| BatchScript.ProcessFile | src/tools/process_with_enhanced_dryer.py:21-70 | A load failure fails the file before a dryer is built. Every loaded file builds the dryer, and a missing key then fails it before any API call. Otherwise `--fallback` skips the API. The fallback runs if and only if the API path returns no image, and it is always given the loaded image. A file succeeds exactly when something is saved. |
| BatchScript.SuccessIffLoadedWithKey | src/tools/process_with_enhanced_dryer.py:27-70 | A file succeeds if and only if it loads and a key is set. Success does not depend on the service. |
| BatchScript.FallbackIffEveryAttemptFails | src/tools/process_with_enhanced_dryer.py:53-59 | Without `--fallback`, the local effect runs exactly when none of the retry attempts succeeds. |
| BatchScript.SelectImages | src/tools/process_with_enhanced_dryer.py:87-88 | The selected files are exactly the listed names with an image extension, kept with their multiplicity. |
| BatchScript.PlanBatch | src/tools/process_with_enhanced_dryer.py:72-93 | The fallback flag is set by the literal `--fallback` argument. A missing directory stops the batch, and so does a listing with no image files. An existing directory with at least one image file processes exactly the selected image files. |
| BatchScript.ImageFilterIgnoresCase | src/tools/process_with_enhanced_dryer.py:88 | Whether a name passes the filter does not depend on letter case. |
| BatchScript.UpperCaseExtensionSelected | src/tools/process_with_enhanced_dryer.py:88 | Any name ending in ".JPG" is accepted. |
| BatchScript.BareExtensionNotSelected | src/tools/process_with_enhanced_dryer.py:88 | A name that is only an extension without the dot, such as "gif", is not accepted. |
| BatchScript.LowerIdempotent | src/tools/process_with_enhanced_dryer.py:88 | Lower-casing twice is the same as lower-casing once. |

## Left out

- HTTP transport: the URL, headers, JSON body, base64 and PNG encoding of the init image, and the 60-second timeout are all absent. The service is a function from attempt number and request to reply.
- Pixel content of `convert`, `resize`, `open`, `save` and `point` in the imaging library is not modelled. The image is a header (mode, width, height) except inside the fallback, which works on an explicit pixel grid.
- The HSV saturation step of the fallback is the parameter `desaturate`. Its colour-space arithmetic is floating point and belongs to the imaging library.
- Fallback.ToneChannelRange: channels are unbounded integers. The imaging library's clamping of a table value into 0..255 when it stores the pixel is not modelled, so the negative contrast outputs are reported instead of clamped.
- Fallback.ApplyFallback: for the same reason, input channels 0..9 reach `desaturate` as negative values (down to −12), which the program never passes to its saturation step. A `desaturate` that first clamps each channel into 0..255 gives back the program's pixel.
- Imaging.Preprocess: the resize factor is exact, not a double. For some longer sides the source's `int(side * (1024 / longer))` gives 1023 where the model gives 1024. The first such side is 1122, and about one longer side in eight above 1024 is affected. The shorter side loses a pixel the same way when its exact scaled value is a whole number: 561×1122 becomes 511×1023 in doubles and 512×1024 in the model.
- Fallback.BrightnessLutBounds: `int(p * 1.2)` is taken as exact twelve-tenths, ignoring the double representation of 1.2. On the channel range 0..255 the two agree for every input.
- Fallback.ContrastLut: `int(128 + 1.1 * (p - 128))` is taken as exact arithmetic. On 0..255 the double evaluation differs at three inputs: 18, 28 and 38 give 6, 17 and 28 in doubles, where the model gives 7, 18 and 29. Brightened channel values 15, 24 and 32 reach these inputs, so `Fallback.Tone` and the per-pixel result of `Fallback.ApplyFallback` differ from the program there.
- Clock sleeps are recorded as delays, not slept.
- Console printing is not modelled. This covers the masked-key preview and all progress and error messages.
- Environment loading (`load_dotenv`, `os.getenv`): the API key is a parameter.
- Exceptions raised by preprocessing or encoding outside the enhanced dryer's `try`, and failures of `save` or `makedirs` in the batch tool, are not modelled. Every such step is assumed to succeed.
- `save_image`, `image_to_bytes` and the output file naming by timestamp are I/O only.
- The system prompt text and the chat-model configuration (model name, temperature) are not reproduced. The prompt is a parameter and the model is an uninterpreted function.
- Chat.GetResponse: the reply comes from the uninterpreted model, so the function only assembles the messages and has no contract beyond `Chat.Assemble`.
- BatchScript.Lower: only ASCII letters are lower-cased. Python's full Unicode case mapping is not modelled.
- The web front end, the launcher script and the packaging script are not part of this model.
- The code only caps the longer side at 1024. It does not restrict the result to a list of engine-accepted sizes.
- After a 429 the code waits 3×delay even on the final attempt (enhanced_image_dryer.py:162-164), when no attempt follows. The model keeps this wait (`EnhancedDryer.RateLimitedBackoff`).
- `process_image` also leaves `current_engine` set to the last engine it tried (enhanced_image_dryer.py:108). The model does not keep this field, because nothing in the modelled code reads it.
- The repository's tests expect the agent's reply to be a string. The code returns a list of role/content entries, and the model follows the code.
