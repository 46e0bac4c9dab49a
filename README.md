# Image generator studio: request URLs, the generation action and the page state

This project models the core of a small web front-end that turns a text prompt
into a generated image by building request URLs for the Pollinations image API
(`https://image.pollinations.ai/prompt/…`), and proves properties of that model.

It covers four pieces.

- **The text-to-image flow** (`textToImageFlow`). It fills a `URLSearchParams`
  buffer with one guarded `append` per truthy optional setting, in a fixed
  order. It then joins the endpoint, the `encodeURIComponent`-encoded prompt and,
  when the buffer is non-empty, `?` and the buffer's serialization. The buffer is
  a class with a `seq` field (`FormUrlEncoded.SearchParams`). The flow is a
  method that calls `append` step by step and is proved equal to a specification
  function (`TextToImage.TextToImageUrl`).
- **The image-to-image flow** (`imageToImageFlow`). The prompt is the image
  followed by a space and the text prompt. The URL carries `model=kontext` and a
  seed drawn as `Math.floor(Math.random() * 1000000)`. The random draw is a
  parameter.
- **The server action** (`generateImageAction`). It validates the form fields
  against the zod schema and reports the first failing field's message. It then
  routes by mode to one of the three flows and folds every outcome into an
  `ActionState` holding either a URL or an error message. The transparent
  background flow calls a foreign image model. That call is an oracle, given as
  its reply.
- **The generator page** (`image-generator.tsx`). It holds the layout presets,
  the advanced settings and their reset, and the fields the form submits. It also
  holds the download link and the history of generated images with its copy in
  local storage. The page's state is a class (`Generator.ImageGenerator`). Each
  handler is a method that updates its fields. Whether a storage call throws is a
  parameter of the handler.

The URL encoders are modelled down to UTF-8 bytes: `encodeURIComponent`
(section 19.2.6.4 of ECMA-262) and the application/x-www-form-urlencoded
serializer of `URLSearchParams` (section 5.2 of the WHATWG URL Standard). Each
has a decoder as its partner, and the proofs are round trips. The server reads
back exactly the prompt from the path segment and exactly the query pairs from
the query.

Behaviour of the code worth knowing:

- A number field that is not a numeral fails validation with zod's message
  `Expected number, received nan`. It is not silently omitted.
- An empty number field coerces to 0. It is then dropped from the query because
  0 is falsy.
- `generateImageAction` never puts the prompt into its result. The result panel
  adds a history item only when the state carries a prompt, so the history is
  never filled from a generation. `HandleNewImage` is modelled on its own terms.
- Two error branches cannot be reached from the action's own logic:
  `Invalid generation mode.` and `Image generation failed: No image URL was
  returned.` Each of those messages can only come from a model failure that
  carries exactly that text.
- The advanced settings (model and switches) are submitted with the form, but
  the action forwards only prompt, width, height and seed. They never reach the
  request URL.

Modules: `Wrappers` (Option, Result), `Decimal` (numerals), `UrlEncoding`,
`FormUrlEncoded` (the serializer, its parser and the `SearchParams` class),
`Pollinations` (the request URL and how the server splits it), `TextToImage`,
`ImageToImage`, `Actions` and `Generator`.

## Model

| member | source | states |
|---|---|---|
| Decimal.NatToString | src/ai/flows/text-to-image.ts:72 | `toString()` of a whole number is a non-empty string of decimal digits with no leading zero |
| Decimal.DigitsValueOfNatToString | src/ai/flows/text-to-image.ts:72-78 | reading a printed numeral back as a number gives the number |
| Decimal.NatToStringInjective | src/ai/flows/image-to-image.ts:46 | different numbers print as different numerals |
| UrlEncoding.EncodeUriComponent | src/ai/flows/text-to-image.ts:103 | the encoded prompt holds only unreserved characters and `%`, and none of `/ ? # & = +`, so it is a single path segment |
| UrlEncoding.DecodeUriComponentRoundTrip | src/ai/flows/text-to-image.ts:103 | `decodeURIComponent` gives back every encoded text exactly |
| UrlEncoding.DecodeEncode | src/ai/flows/text-to-image.ts:102-103 | both encoders can be inverted: the component encoder by plain decoding, the form encoder by decoding that reads `+` as a space |
| UrlEncoding.NumeralKept | src/ai/flows/text-to-image.ts:72-78 | a decimal numeral passes through either encoder unchanged |
| FormUrlEncoded.FormEncodingHasNoDelimiters | src/ai/flows/text-to-image.ts:102 | form-encoded names and values never contain `&` or `=` |
| FormUrlEncoded.ParseSerialize | src/ai/flows/text-to-image.ts:102 | parsing a serialized query gives back exactly the pairs, in order, whatever they contain |
| FormUrlEncoded.SearchParams.constructor | src/ai/flows/text-to-image.ts:69 | a new buffer holds no pairs |
| FormUrlEncoded.SearchParams.Append | src/ai/flows/text-to-image.ts:71-73 | `append` adds the pair at the end and keeps every earlier pair, including ones with the same name |
| FormUrlEncoded.SearchParams.ToString | src/ai/flows/text-to-image.ts:102 | the serialization is empty exactly when there are no pairs, and it parses back to the pairs |
| Pollinations.PromptUrlParts | src/ai/flows/text-to-image.ts:103 | from the request URL the server reads back exactly the prompt as the one path segment and exactly the query string; there is a `?` exactly when the query is non-empty |
| Pollinations.PromptUrlQuestionMark | src/ai/flows/text-to-image.ts:103 | the URL contains `?` if and only if the query string is non-empty |
| TextToImage.AppendIfTruthy | src/ai/flows/text-to-image.ts:71-100 | one guarded `append`: the setting's pair is appended exactly when its field is truthy, and nothing else changes |
| TextToImage.BuildQuery | src/ai/flows/text-to-image.ts:69-100 | the ten guarded appends leave in the buffer exactly the query pairs of the input, in the flow's order |
| TextToImage.TextToImageFlow | src/ai/flows/text-to-image.ts:67-108 | the flow returns the endpoint, the encoded prompt and, only when the buffer is non-empty, `?` and its serialization |
| TextToImage.QueryPairs | src/ai/flows/text-to-image.ts:69-100 | the query has at most one pair per setting, and no pair has an empty value |
| TextToImage.TextToImageUrl | src/ai/flows/text-to-image.ts:69-103 | the URL starts with the endpoint and has a `?` exactly when some setting is truthy |
| TextToImage.QueryKeysExactlyTruthy | src/ai/flows/text-to-image.ts:71-100 | a pair is in the query if and only if its setting is truthy and it carries the setting's value; every pair comes from a setting; the names follow the flow's order with no name twice |
| TextToImage.AbsentSettingOmitted | src/ai/flows/text-to-image.ts:71-100 | an absent or falsy setting names no query parameter |
| TextToImage.FalsySettingsOmitted | src/ai/flows/text-to-image.ts:71-100 | zero numbers, empty strings and `false` flags add nothing to the query |
| TextToImage.FlagsAreTrue | src/ai/flows/text-to-image.ts:83-100 | a boolean setting that reaches the query always has the value `true` |
| TextToImage.TextToImageUrlRoundTrip | src/ai/flows/text-to-image.ts:102-103 | the server reads back the prompt from the path and exactly the query pairs from the query |
| TextToImage.NoSettingsNoQuery | src/ai/flows/text-to-image.ts:103 | with no truthy setting the URL is the endpoint and the encoded prompt, with no `?` |
| TextToImage.DimensionsOnlyQuery | src/ai/flows/text-to-image.ts:71-79 | when only width, height and seed can be set, the query is at most those three, in that order |
| ImageToImage.FullPrompt | src/ai/flows/image-to-image.ts:42 | the combined prompt is the image, one space, then the prompt, and nothing else |
| ImageToImage.RandomSeed | src/ai/flows/image-to-image.ts:46 | the seed is a whole number below 1000000 |
| ImageToImage.ImageToImageUrl | src/ai/flows/image-to-image.ts:42-46 | the URL ends with the seed's numeral, which denotes the draw's seed, after a part that does not depend on the draw |
| ImageToImage.RandomSeedBounds | src/ai/flows/image-to-image.ts:46 | the seed is the integer part of `random * 1000000` |
| ImageToImage.ImageToImageUrlIsPromptUrl | src/ai/flows/image-to-image.ts:43-46 | the URL is the common request URL for the combined prompt with the query `model=kontext&seed=…` |
| ImageToImage.ImageToImageUrlRoundTrip | src/ai/flows/image-to-image.ts:42-46 | the server reads back the combined prompt and exactly the pairs `model=kontext` then `seed`, whose digits denote the draw |
| ImageToImage.OnlySeedVaries | src/ai/flows/image-to-image.ts:45-46 | for one input every URL shares the part before the seed's digits, and two URLs are equal exactly when the two draws give the same seed |
| Actions.Validate | src/lib/actions.ts:10-35 | a form that passes has a non-empty prompt and one of the three modes, and its image is the form's own image field |
| Actions.ValidateAccepts | src/lib/actions.ts:10-17 | a form passes the schema exactly when the prompt is present and non-empty, the mode is one of the three, and every number field present is a numeral; the parsed fields are the form's own |
| Actions.ValidateMessages | src/lib/actions.ts:28-35 | the first failing field in schema order decides the message: `Required`, `Prompt is required.` or the enum message naming the received mode |
| Actions.CoerceNumber | src/lib/actions.ts:13-15 | an absent field stays absent; coercion fails exactly when a field is present and not a decimal numeral, and then with the NaN message |
| Actions.CoerceNumberRoundTrip | src/lib/actions.ts:13-15 | a number printed by the page coerces back to that number |
| Actions.CoerceNumberCases | src/lib/actions.ts:13-15 | an absent field stays absent, an empty field is 0, and text that is not a numeral fails with the NaN message |
| Actions.EmptyPromptRejected | src/lib/actions.ts:11 | an empty prompt gives `Prompt is required.` whatever the other fields, the draw or the model reply |
| Actions.ValidationErrorMessages | src/lib/actions.ts:30-35 | every validation message is `Required`, `Prompt is required.`, the NaN message, or an enum message longer than any message raised later |
| Actions.TransparentFlow | src/ai/flows/transparent-background-image.ts:71-75 | the flow returns a URL exactly when the model replied with a non-empty media URL; the URL it returns is never empty |
| Actions.Settle | src/lib/actions.ts:54-63 | exactly one of URL and error is set; a URL is set only when the flow returned that non-empty URL; an empty URL becomes the no-URL error; a thrown value becomes what the `catch` clause reports for it |
| Actions.GenerateImageAction | src/lib/actions.ts:24-64 | the action never throws: exactly one of URL and error is set, and a URL is never empty |
| Actions.Dispatch | src/lib/actions.ts:39-63 | the routing by mode sets exactly one of URL and error, and a URL is never empty |
| Actions.DispatchRaisesOnlyFromReply | src/lib/actions.ts:39-63 | for a known mode, any message other than the missing-image, transparent-failure and unknown-error messages comes from an `Error` the model call raised |
| Actions.InvalidModeBranchUnreachable | src/lib/actions.ts:50-52 | `Invalid generation mode.` is reported only when the model call raised an `Error` with that exact message |
| Actions.NoUrlBranchUnreachable | src/lib/actions.ts:54-56 | `Image generation failed: No image URL was returned.` is reported only when the model call raised an `Error` with that exact message |
| Actions.ImageRequired | src/lib/actions.ts:43-46 | image-to-image without an image, or with an empty one, is refused with the missing-image message |
| Actions.TextToImageSettles | src/lib/actions.ts:41-42 | a valid text-to-image request succeeds with the text-to-image URL of its forwarded fields |
| Actions.TextToImageForwardsOnly | src/lib/actions.ts:42 | a valid text-to-image form yields that URL, and its query names only width, height and seed, whatever else the form holds |
| Actions.ImageToImageRouted | src/lib/actions.ts:43-47 | a valid image-to-image form with an image yields the image-to-image URL for that image and prompt |
| Actions.TransparentRouted | src/lib/actions.ts:48-62 | a transparent-background request passes on a non-empty media URL; no media or an empty URL gives `Failed to generate transparent image.`; a raised `Error` gives its message; any other thrown value gives `An unknown error occurred.` |
| Generator.LayoutOf | src/components/image-generator.tsx:42-49 | every layout preset has a positive width and height |
| Generator.WithSwitch | src/components/image-generator.tsx:331-352 | a switch handler changes only its own switch and keeps the model and the other switches |
| Generator.RandomIndex | src/components/image-generator.tsx:237 | the random pick is a valid index into the sample prompts |
| Generator.DefaultAdvancedSettings | src/components/image-generator.tsx:55-61 | the defaults are model `flux`, one of the offered models, with every switch off, and they submit no switch field |
| Generator.ImageGenerator.constructor | src/components/image-generator.tsx:165-177 | a fresh page has an empty history, an empty prompt, the default settings and the default layout |
| Generator.ImageGenerator.LoadHistory | src/components/image-generator.tsx:179-188 | the mount effect replaces the history with the stored list when one parses and otherwise leaves it; storage is not written |
| Generator.ImageGenerator.HandleNewImage | src/components/image-generator.tsx:190-201 | the item goes in front of the history and its prompt into the prompt field; a successful write stores the new list, and a failed one leaves storage as it was |
| Generator.ImageGenerator.HandleDeleteHistoryItem | src/components/image-generator.tsx:221-234 | the history loses every item with the id and keeps the rest in order; a successful write stores the new list |
| Generator.ImageGenerator.HandleClearHistory | src/components/image-generator.tsx:211-219 | the history becomes empty, and the storage key is removed when the removal succeeds |
| Generator.ImageGenerator.HandleRandomPrompt | src/components/image-generator.tsx:236-239 | the prompt becomes one of the sample prompts, the one the draw picks |
| Generator.ImageGenerator.HandleResetAdvanced | src/components/image-generator.tsx:241-244 | the advanced settings return to the defaults, whatever was chosen, and nothing else changes |
| Generator.ImageGenerator.SelectModel | src/components/image-generator.tsx:315 | only the model changes |
| Generator.ImageGenerator.ToggleSwitch | src/components/image-generator.tsx:331-352 | only the toggled switch changes |
| Generator.ImageGenerator.SelectLayout | src/components/image-generator.tsx:281 | only the layout changes |
| Generator.ImageGenerator.EditPrompt | src/components/image-generator.tsx:276 | only the prompt changes |
| Generator.WithoutId | src/components/image-generator.tsx:223 | the filtered history is never longer than the history |
| Generator.WithoutIdMembers | src/components/image-generator.tsx:223 | the filter keeps exactly the items with another id |
| Generator.WithoutIdConcat | src/components/image-generator.tsx:223 | the filter keeps the survivors in order: it distributes over concatenation |
| Generator.WithoutAbsentId | src/components/image-generator.tsx:223 | deleting an id that no item has changes nothing |
| Generator.WithoutIdIdempotent | src/components/image-generator.tsx:221-234 | deleting twice is the same as deleting once |
| Generator.WithoutNewItem | src/components/image-generator.tsx:190-234 | deleting a newly added item whose id is new gives back the history before the addition |
| Generator.LoadedHistory | src/components/image-generator.tsx:179-188 | a stored list is read back exactly; no stored value, or one that does not parse, keeps the current history |
| Generator.ReloadAfterNewImage | src/components/image-generator.tsx:179-201 | after a new image is added and written, a fresh page over the same storage loads exactly the history the first page holds, the item in front of the old history |
| Generator.ReloadAfterDelete | src/components/image-generator.tsx:179-234 | after a deletion is written, a fresh page over the same storage loads exactly the filtered history |
| Generator.ReloadAfterClear | src/components/image-generator.tsx:179-219 | after the key is removed, a fresh page loads an empty history and the storage holds nothing |
| Generator.DownloadHref | src/components/image-generator.tsx:393 | the link starts with `/api/download?url=`, and after it no character can start another parameter, a fragment or a path segment |
| Generator.DownloadHrefRoundTrip | src/components/image-generator.tsx:393 | the download link is `/api/download?` with a query that parses to exactly one pair, `url` with the image URL |
| Generator.SwitchEntriesNames | src/components/image-generator.tsx:331-352 | the switches only ever submit their own four field names |
| Generator.SubmittedForm | src/components/image-generator.tsx:262-296 | the submitted form never carries an image field, whatever the switches |
| Generator.SubmittedFields | src/components/image-generator.tsx:262-296 | the submitted form carries the prompt, the fixed mode `text-to-image`, the layout's printed dimensions and the seed as typed, and no image, whatever the switches |
| Generator.SubmittedFormValidates | src/components/image-generator.tsx:262-296 | a submission with a non-empty prompt and a numeral (or nothing) in the seed field passes the schema with the layout's dimensions |
| Generator.PageSubmission | src/components/image-generator.tsx:248-296 | such a submission yields the request URL for the prompt with the layout's width and height and, when positive, the seed; the advanced settings do not affect it |

## Left out

- The download proxy (`src/app/api/download/route.ts`), the header, the page shell and the Genkit development entry point are not part of this model. The proxy is only a fetch and a relabel.
- The `definePrompt` templates of the two flow files are never called by the flows.
- The Genkit runtime and the foreign image-model call are left out. The call is an oracle (`Actions.ModelReply`) given to the action.
- Genkit's own schema check of flow inputs is left out. The action only ever passes fields the flows' schemas accept.
- React rendering, toasts, the clipboard, the pending state and the tabs are left out. They hold no state the core reads.
- The result panel's effect that adds a history item is not modelled. It requires a `prompt` in the action state, which `generateImageAction` never sets.
- The action's previous state argument is not modelled, because the action never reads it.
- `Date.now()` item ids and timestamps are left out: items are given whole.
- Several browser tabs writing the same storage key are not modelled: a single page is modelled.
- `src/lib/prompts.json` is not part of this model. The samples are a parameter.
- Generator.ImageGenerator.HandleRandomPrompt: requires a non-empty sample list, because the file is not available to show that it is non-empty.
- Actions.CoerceNumber: reads only strings of decimal digits as numbers. JavaScript's `Number` also accepts surrounding whitespace, a sign, a fraction, an exponent, hexadecimal and `Infinity`. The model treats those as `NaN`. Negative and fractional numbers are not representable, because widths, heights and seeds are naturals.
- Actions.Validate: a form with two entries of the same name keeps one value per name, as `Object.fromEntries` does, but which value it keeps is not modelled.
- UrlEncoding.DecodeUriComponent: strict. It fails on a stray `%` or on bytes that are not UTF-8, where the standard parser repairs them. The round trips need only the strict decoder.
- FormUrlEncoded.ParseQuery: strict in the same way.
- Lone surrogate code units are not modelled: `char` is a Unicode scalar value. `encodeURIComponent` would throw on them.
- Generator.LoadedHistory: takes the JSON round trip as given. Text that does not parse, and JSON that is not a list of items, leave the history as it was. The page would store whatever `JSON.parse` returns.
- Floating point is left out. `Math.random()` is a real in [0, 1), and the products with it are exact.
- Decimal.NatToString: prints every natural as plain digits. JavaScript prints numbers from 10^21 upward in exponent form (`1e+21`), so the query value for such a width, height or seed differs from the model's.
- Actions.CoerceNumber: reads a numeral as its exact value. `Number` rounds to a double, so a typed seed above 2^53 is read as a nearby even value (9007199254740993 becomes 9007199254740992).
