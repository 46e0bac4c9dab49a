/** `generateImageAction`: the server action behind the generator form. It
    validates the submitted fields against the form schema, routes the request
    to one of the three generation flows by mode, and folds every outcome into
    an `ActionState` carrying either an image URL or an error message. Nothing
    is ever thrown out of it.

    The form data reaches the schema as `Object.fromEntries` of its entries: a
    map from field name to text. The transparent-background flow is a thin
    wrapper over a foreign model call; that call is an oracle here, given as
    its reply. `random` is the value `Math.random()` returns inside the
    image-to-image flow. */
module Actions {
  import opened Wrappers
  import opened Decimal
  import opened Pollinations
  import opened TextToImage
  import ImageToImage

  type FormFields = map<string, string>

  /** The three modes the schema's enum admits, in its order. */
  const ModeNames: seq<string> := ["text-to-image", "image-to-image", "transparent-bg"]

  const RequiredMessage: string := "Required"
  const PromptRequiredMessage: string := "Prompt is required."
  const NanMessage: string := "Expected number, received nan"
  const InvalidInputMessage: string := "Invalid input."
  const ImageRequiredMessage: string := "An image is required for image-to-image generation."
  const InvalidModeMessage: string := "Invalid generation mode."
  const NoUrlMessage: string := "Image generation failed: No image URL was returned."
  const UnknownErrorMessage: string := "An unknown error occurred."
  const TransparentFailedMessage: string := "Failed to generate transparent image."

  /** The fixed messages are pairwise different; most differ in length. */
  lemma MessageLengths()
    ensures |RequiredMessage| == 8 && |PromptRequiredMessage| == 19 && |NanMessage| == 29
    ensures |InvalidInputMessage| == 14 && |InvalidModeMessage| == 24 && |UnknownErrorMessage| == 26
    ensures |TransparentFailedMessage| == 37
    ensures |ImageRequiredMessage| == 51 && |NoUrlMessage| == 51
    ensures ImageRequiredMessage != NoUrlMessage
  {
  }

  /** The enum's message for a value outside it. */
  function InvalidEnumMessage(received: string): string {
    "Invalid enum value. Expected 'text-to-image' | 'image-to-image' | 'transparent-bg', received '"
      + received + "'"
  }

  // ---------------------------------------------------------------------------
  // Validation

  /** The parsed form data: only the six schema fields survive. */
  datatype Validated = Validated(
    prompt: string,
    mode: string,
    width: Option<nat>,
    height: Option<nat>,
    seed: Option<nat>,
    image: Option<string>)

  function Field(form: FormFields, name: string): Option<string> {
    if name in form then Some(form[name]) else None
  }

  /** `z.coerce.number().optional()`: an absent field stays absent, a decimal
      numeral (the empty text among them) becomes its value, anything else is
      `NaN` and fails. */
  function CoerceNumber(field: Option<string>): (r: Result<Option<nat>, string>)
    ensures field.None? ==> r == Success(None)
    ensures r.Failure? <==> field.Some? && !AllDigits(field.value)
    ensures r.Failure? ==> r.error == NanMessage
  {
    match field
    case None => Success(None)
    case Some(text) =>
      if AllDigits(text) then Success(Some(DigitsValue(text))) else Failure(NanMessage)
  }

  /** `FormSchema.safeParse`, reporting the first message of the first field
      that fails, in the schema's field order. */
  function Validate(form: FormFields): (r: Result<Validated, string>)
    ensures r.Success? ==> r.value.prompt != "" && r.value.mode in ModeNames
    ensures r.Success? ==> r.value.image == Field(form, "image")
  {
    var prompt := Field(form, "prompt");
    var mode := Field(form, "mode");
    var width := CoerceNumber(Field(form, "width"));
    var height := CoerceNumber(Field(form, "height"));
    var seed := CoerceNumber(Field(form, "seed"));
    if prompt.None? then Failure(RequiredMessage)
    else if prompt.value == "" then Failure(PromptRequiredMessage)
    else if mode.None? then Failure(RequiredMessage)
    else if mode.value !in ModeNames then Failure(InvalidEnumMessage(mode.value))
    else if width.Failure? then Failure(width.error)
    else if height.Failure? then Failure(height.error)
    else if seed.Failure? then Failure(seed.error)
    else Success(Validated(prompt.value, mode.value, width.value, height.value, seed.value, Field(form, "image")))
  }

  // ---------------------------------------------------------------------------
  // Flows and the result envelope

  /** What a flow can throw: an `Error` with its message, or any other value. */
  datatype Thrown = ErrorValue(message: string) | OtherValue

  /** A flow either returns its `imageUrl` or throws. */
  datatype FlowOutcome = Returned(imageUrl: string) | Threw(thrown: Thrown)

  /** The reply of the foreign image-model call: media with a URL, no media,
      or a thrown failure. */
  datatype ModelReply = Media(url: string) | NoMedia | Raised(thrown: Thrown)

  /** `generateTransparentImageFlow`: a missing or empty media URL throws. */
  function TransparentFlow(reply: ModelReply): (outcome: FlowOutcome)
    ensures outcome.Returned? ==> outcome.imageUrl != ""
    ensures outcome.Returned? <==> reply.Media? && reply.url != ""
  {
    match reply
    case Media(url) =>
      if url == "" then Threw(ErrorValue(TransparentFailedMessage)) else Returned(url)
    case NoMedia => Threw(ErrorValue(TransparentFailedMessage))
    case Raised(t) => Threw(t)
  }

  datatype ActionState = ActionState(imageUrl: Option<string>, error: Option<string>)

  function ErrorState(message: string): ActionState {
    ActionState(None, Some(message))
  }

  /** The `catch` clause: an `Error`'s message, or a fixed message otherwise. */
  function Caught(t: Thrown): ActionState {
    match t
    case ErrorValue(message) => ErrorState(message)
    case OtherValue => ErrorState(UnknownErrorMessage)
  }

  /** The end of the `try` block: an empty URL is thrown as a failure, which
      the `catch` then turns into an error state. */
  function Settle(outcome: FlowOutcome): (state: ActionState)
    ensures state.imageUrl.Some? != state.error.Some?
    ensures state.imageUrl.Some? ==> outcome == Returned(state.imageUrl.value) && state.imageUrl.value != ""
    ensures outcome == Returned("") ==> state == ErrorState(NoUrlMessage)
    ensures outcome.Threw? ==> state == Caught(outcome.thrown)
  {
    match outcome
    case Returned(url) =>
      if url == "" then Caught(ErrorValue(NoUrlMessage)) else ActionState(Some(url), None)
    case Threw(t) => Caught(t)
  }

  /** The text-to-image request: only prompt, width, height and seed are
      forwarded. */
  function ForwardedInput(v: Validated): TextToImageInput {
    TextToImageInput(v.prompt, v.width, v.height, v.seed, None, None, None, None, None, None, None)
  }

  /** `generateImageAction`. The previous state is not read. */
  function GenerateImageAction(form: FormFields, random: real, reply: ModelReply): (state: ActionState)
    requires 0.0 <= random < 1.0
    ensures state.imageUrl.Some? != state.error.Some?
    ensures state.imageUrl.Some? ==> state.imageUrl.value != ""
  {
    match Validate(form)
    case Failure(message) =>
      ErrorState(if message == "" then InvalidInputMessage else message)
    case Success(v) => Dispatch(v, random, reply)
  }

  /** The `switch` on the validated mode. */
  function Dispatch(v: Validated, random: real, reply: ModelReply): (state: ActionState)
    requires 0.0 <= random < 1.0
    ensures state.imageUrl.Some? != state.error.Some?
    ensures state.imageUrl.Some? ==> state.imageUrl.value != ""
  {
    if v.mode == "text-to-image" then
      Settle(Returned(TextToImageUrl(ForwardedInput(v))))
    else if v.mode == "image-to-image" then
      if v.image.None? || v.image.value == "" then ErrorState(ImageRequiredMessage)
      else Settle(Returned(ImageToImage.ImageToImageUrl(ImageToImage.ImageToImageInput(v.prompt, v.image.value), random)))
    else if v.mode == "transparent-bg" then
      Settle(TransparentFlow(reply))
    else
      ErrorState(InvalidModeMessage)
  }

  // ---------------------------------------------------------------------------
  // Properties

  /** A form passes validation exactly when the prompt is present and
      non-empty, the mode is one of the three, and every number field present
      is a decimal numeral; the validated fields are then the form's own. */
  lemma ValidateAccepts(form: FormFields)
    ensures Validate(form).Success? <==>
      "prompt" in form && form["prompt"] != "" &&
      "mode" in form && form["mode"] in ModeNames &&
      ("width" in form ==> AllDigits(form["width"])) &&
      ("height" in form ==> AllDigits(form["height"])) &&
      ("seed" in form ==> AllDigits(form["seed"]))
    ensures Validate(form).Success? ==>
      var v := Validate(form).value;
      v.prompt == form["prompt"] && v.mode == form["mode"] && v.image == Field(form, "image")
  {
  }

  /** The first failing field decides the message, in schema order. */
  lemma ValidateMessages(form: FormFields)
    ensures "prompt" !in form ==> Validate(form) == Failure(RequiredMessage)
    ensures "prompt" in form && form["prompt"] == "" ==> Validate(form) == Failure(PromptRequiredMessage)
    ensures "prompt" in form && form["prompt"] != "" && "mode" !in form ==> Validate(form) == Failure(RequiredMessage)
    ensures "prompt" in form && form["prompt"] != "" && "mode" in form && form["mode"] !in ModeNames ==>
      Validate(form) == Failure(InvalidEnumMessage(form["mode"]))
  {
  }

  /** Coercion reads back every numeral the page can print, an empty field is
      zero, and text that is not a numeral fails with the `NaN` message. */
  lemma CoerceNumberRoundTrip(n: nat)
    ensures CoerceNumber(Some(NatToString(n))) == Success(Some(n))
  {
    DigitsValueOfNatToString(n);
  }

  lemma CoerceNumberCases(text: string)
    ensures CoerceNumber(None) == Success(None)
    ensures CoerceNumber(Some("")) == Success(Some(0))
    ensures !AllDigits(text) ==> CoerceNumber(Some(text)) == Failure(NanMessage)
  {
  }

  /** An empty prompt is rejected with the schema's message whatever the mode
      and the other fields, and no flow runs: the state does not depend on
      the random draw or the model reply. */
  lemma EmptyPromptRejected(form: FormFields, random: real, reply: ModelReply)
    requires 0.0 <= random < 1.0
    requires "prompt" in form && form["prompt"] == ""
    ensures GenerateImageAction(form, random, reply) == ErrorState(PromptRequiredMessage)
  {
    ValidateMessages(form);
  }

  /** Every message validation reports is one of three fixed messages or an
      enum message, which is longer than any message raised after
      validation. */
  lemma ValidationErrorMessages(form: FormFields)
    requires Validate(form).Failure?
    ensures var m := Validate(form).error;
      m == RequiredMessage || m == PromptRequiredMessage || m == NanMessage || |m| > 94
  {
    if "prompt" in form && form["prompt"] != "" && "mode" in form && form["mode"] !in ModeNames {
      InvalidEnumMessageLength(form["mode"]);
    }
  }

  lemma InvalidEnumMessageLength(received: string)
    ensures |InvalidEnumMessage(received)| == 95 + |received|
  {
  }

  lemma InvalidModeBranchUnreachable(form: FormFields, random: real, reply: ModelReply)
    requires 0.0 <= random < 1.0
    requires GenerateImageAction(form, random, reply).error == Some(InvalidModeMessage)
    ensures reply == Raised(ErrorValue(InvalidModeMessage))
  {
    MessageLengths();
    match Validate(form)
    case Failure(m) =>
      ValidationErrorMessages(form);
    case Success(v) =>
      DispatchRaisesOnlyFromReply(v, random, reply, InvalidModeMessage);
  }

  /** A validated request with a known mode reports a message other than the
      missing-image, transparent-failure and unknown-error messages only when
      the model reply raised an `Error` with that message. */
  lemma DispatchRaisesOnlyFromReply(v: Validated, random: real, reply: ModelReply, message: string)
    requires 0.0 <= random < 1.0
    requires v.mode in ModeNames
    requires message != ImageRequiredMessage && message != TransparentFailedMessage && message != UnknownErrorMessage
    requires Dispatch(v, random, reply).error == Some(message)
    ensures reply == Raised(ErrorValue(message))
  {
    if v.mode == "text-to-image" {
      TextToImageUrlNonEmpty(ForwardedInput(v));
    }
  }

  /** Image-to-image without an image (absent or empty) is refused and the
      image flow is not called. */
  lemma ImageRequired(form: FormFields, random: real, reply: ModelReply)
    requires 0.0 <= random < 1.0
    requires Validate(form).Success? && form["mode"] == "image-to-image"
    requires "image" !in form || form["image"] == ""
    ensures GenerateImageAction(form, random, reply) == ErrorState(ImageRequiredMessage)
  {
    ValidateAccepts(form);
  }

  lemma TextToImageUrlNonEmpty(input: TextToImageInput)
    ensures Endpoint <= TextToImageUrl(input)
    ensures TextToImageUrl(input) != ""
  {
    TextToImageUrlRoundTrip(input);
  }

  /** A validated text-to-image request settles with the text-to-image URL of
      its forwarded fields. */
  lemma TextToImageSettles(form: FormFields, random: real, reply: ModelReply)
    requires 0.0 <= random < 1.0
    requires Validate(form).Success? && Validate(form).value.mode == "text-to-image"
    ensures GenerateImageAction(form, random, reply) ==
      ActionState(Some(TextToImageUrl(ForwardedInput(Validate(form).value))), None)
  {
    TextToImageUrlNonEmpty(ForwardedInput(Validate(form).value));
  }

  /** A valid text-to-image form yields the text-to-image URL built from the
      prompt, width, height and seed alone; the query then names no other
      setting, whatever else the form holds. */
  lemma TextToImageForwardsOnly(form: FormFields, random: real, reply: ModelReply)
    requires 0.0 <= random < 1.0
    requires Validate(form).Success? && form["mode"] == "text-to-image"
    ensures GenerateImageAction(form, random, reply) ==
      ActionState(Some(TextToImageUrl(ForwardedInput(Validate(form).value))), None)
    ensures forall k, v :: (Name(k), v) in TextToImage.QueryPairs(ForwardedInput(Validate(form).value)) ==>
      k == Width || k == Height || k == Seed
  {
    ValidateAccepts(form);
    TextToImageSettles(form, random, reply);
    ForwardedQueryNames(Validate(form).value);
  }

  lemma ForwardedQueryNames(validated: Validated)
    ensures forall k, v :: (Name(k), v) in TextToImage.QueryPairs(ForwardedInput(validated)) ==>
      k == Width || k == Height || k == Seed
  {
    var input := ForwardedInput(validated);
    forall k, v | (Name(k), v) in TextToImage.QueryPairs(input)
      ensures k == Width || k == Height || k == Seed
    {
      AppendedPair(input, QueryKeys, k, v);
    }
  }

  /** A valid image-to-image form with an image yields the image-to-image URL
      for that image and prompt. */
  lemma ImageToImageRouted(form: FormFields, random: real, reply: ModelReply)
    requires 0.0 <= random < 1.0
    requires Validate(form).Success? && form["mode"] == "image-to-image"
    requires "image" in form && form["image"] != ""
    ensures GenerateImageAction(form, random, reply) ==
      ActionState(Some(ImageToImage.ImageToImageUrl(ImageToImage.ImageToImageInput(form["prompt"], form["image"]), random)), None)
  {
    ValidateAccepts(form);
  }

  /** The transparent-background request: a URL from the model is passed on;
      a missing or empty one, or a failure, becomes the error state with the
      thrown message, and nothing propagates. */
  lemma TransparentRouted(form: FormFields, random: real, reply: ModelReply)
    requires 0.0 <= random < 1.0
    requires Validate(form).Success? && form["mode"] == "transparent-bg"
    ensures reply.Media? && reply.url != "" ==>
      GenerateImageAction(form, random, reply) == ActionState(Some(reply.url), None)
    ensures reply == NoMedia || reply == Media("") ==>
      GenerateImageAction(form, random, reply) == ErrorState(TransparentFailedMessage)
    ensures reply.Raised? && reply.thrown.ErrorValue? ==>
      GenerateImageAction(form, random, reply) == ErrorState(reply.thrown.message)
    ensures reply == Raised(OtherValue) ==>
      GenerateImageAction(form, random, reply) == ErrorState(UnknownErrorMessage)
  {
    ValidateAccepts(form);
  }

  /** Every flow returns a non-empty URL, so the `No image URL` failure is
      never raised by the action itself: that message can only come from a
      model failure carrying exactly that text. */
  lemma NoUrlBranchUnreachable(form: FormFields, random: real, reply: ModelReply)
    requires 0.0 <= random < 1.0
    requires GenerateImageAction(form, random, reply).error == Some(NoUrlMessage)
    ensures reply == Raised(ErrorValue(NoUrlMessage))
  {
    MessageLengths();
    match Validate(form)
    case Failure(m) =>
      ValidationErrorMessages(form);
    case Success(v) =>
      DispatchRaisesOnlyFromReply(v, random, reply, NoUrlMessage);
  }
}
