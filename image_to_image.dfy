/** `imageToImageFlow`: the image-to-image request URL. The base image and the
    prompt are joined into one combined prompt, encoded as the path segment,
    and followed by the fixed `model=kontext` parameter and a random seed.
    The random draw is a parameter: `random` is the value `Math.random()`
    returned, a real in [0, 1). */
module ImageToImage {
  import opened Wrappers
  import opened Decimal
  import opened UrlEncoding
  import opened FormUrlEncoded
  import opened Pollinations

  datatype ImageToImageInput = ImageToImageInput(prompt: string, image: string)

  /** The combined prompt is the image first, then exactly one space, then the
      prompt, with nothing else. */
  function FullPrompt(input: ImageToImageInput): (s: string)
    ensures |s| == |input.image| + 1 + |input.prompt|
    ensures s[..|input.image|] == input.image
    ensures s[|input.image|] == ' '
    ensures s[|input.image| + 1..] == input.prompt
  {
    var s := input.image + " " + input.prompt;
    assert s == input.image + [' '] + input.prompt;
    assert s[..|input.image|] == input.image;
    assert s[|input.image| + 1..] == input.prompt;
    s
  }

  /** `Math.floor(random * 1000000)`. */
  function RandomSeed(random: real): (n: nat)
    requires 0.0 <= random < 1.0
    ensures n < 1000000
  {
    (random * 1000000.0).Floor
  }

  /** Everything before the seed's digits; it does not depend on the draw. */
  function SeedlessUrl(input: ImageToImageInput): string {
    Endpoint + EncodeUriComponent(FullPrompt(input)) + "?model=kontext" + "&seed="
  }

  /** The URL the flow returns. It never fails, and it ends with the seed's
      numeral after a part that does not depend on the draw. */
  function ImageToImageUrl(input: ImageToImageInput, random: real): (url: string)
    requires 0.0 <= random < 1.0
    ensures SeedlessUrl(input) <= url
    ensures AllDigits(url[|SeedlessUrl(input)|..])
    ensures DigitsValue(url[|SeedlessUrl(input)|..]) == RandomSeed(random)
  {
    var imageUrl := Endpoint + EncodeUriComponent(FullPrompt(input)) + "?model=kontext";
    var url := imageUrl + "&seed=" + NatToString(RandomSeed(random));
    assert url == SeedlessUrl(input) + NatToString(RandomSeed(random));
    assert url[|SeedlessUrl(input)|..] == NatToString(RandomSeed(random));
    DigitsValueOfNatToString(RandomSeed(random));
    url
  }

  /** The query parameters of the URL: `model` first, `seed` last. */
  function QueryPairs(random: real): seq<Pair>
    requires 0.0 <= random < 1.0
  {
    [("model", "kontext"), ("seed", NatToString(RandomSeed(random)))]
  }

  // ---------------------------------------------------------------------------
  // Properties

  /** The draw is the integer part of `random * 1000000`. */
  lemma RandomSeedBounds(random: real)
    requires 0.0 <= random < 1.0
    ensures RandomSeed(random) as real <= random * 1000000.0 < RandomSeed(random) as real + 1.0
  {
  }

  /** The fixed parameter names and value need no escaping. */
  lemma ModelKept()
    ensures Encode("model", Form) == "model"
  {
  }

  lemma KontextKept()
    ensures Encode("kontext", Form) == "kontext"
  {
  }

  lemma SeedKept()
    ensures Encode("seed", Form) == "seed"
  {
  }

  lemma ModelSeedConcat(digits: string)
    ensures "model" + "=" + "kontext" + "&" + "seed" + "=" + digits == "model=kontext&seed=" + digits
  {
  }

  /** The two parameters serialize to `model=kontext&seed=` and the digits. */
  lemma SerializeModelSeed(digits: string)
    requires AllDigits(digits)
    ensures Serialize([("model", "kontext"), ("seed", digits)]) == "model=kontext&seed=" + digits
  {
    NumeralKept(digits, Form);
    ModelKept();
    KontextKept();
    SeedKept();
    ModelSeedConcat(digits);
    SerializeTwo("model", "kontext", "seed", digits);
  }

  lemma SeedUrlConcat(prefix: string, digits: string)
    ensures prefix + "?model=kontext" + "&seed=" + digits == prefix + ("?" + ("model=kontext&seed=" + digits))
  {
  }

  /** The URL is the common request URL for the combined prompt with the two
      query parameters form-encoded in order. */
  lemma ImageToImageUrlIsPromptUrl(input: ImageToImageInput, random: real)
    requires 0.0 <= random < 1.0
    ensures ImageToImageUrl(input, random) == PromptUrl(FullPrompt(input), Serialize(QueryPairs(random)))
  {
    var digits := NatToString(RandomSeed(random));
    SerializeModelSeed(digits);
    SeedUrlConcat(Endpoint + EncodeUriComponent(FullPrompt(input)), digits);
  }

  /** The server reads back the combined prompt from the path and exactly the
      two parameters, `model=kontext` then the seed, from the query; the seed
      parameter's digits denote the draw. */
  lemma ImageToImageUrlRoundTrip(input: ImageToImageInput, random: real)
    requires 0.0 <= random < 1.0
    ensures Endpoint <= ImageToImageUrl(input, random)
    ensures DecodeUriComponent(PathSegment(ImageToImageUrl(input, random))) == Some(FullPrompt(input))
    ensures ParseQuery(QueryPart(ImageToImageUrl(input, random))) == Some(QueryPairs(random))
    ensures AllDigits(QueryPairs(random)[1].1) && DigitsValue(QueryPairs(random)[1].1) == RandomSeed(random)
  {
    ImageToImageUrlIsPromptUrl(input, random);
    PromptUrlParts(FullPrompt(input), Serialize(QueryPairs(random)));
    ParseSerialize(QueryPairs(random));
    DigitsValueOfNatToString(RandomSeed(random));
  }

  /** For a fixed input, two results share everything up to the seed's digits,
      and they are equal exactly when the two draws give the same seed. */
  lemma OnlySeedVaries(input: ImageToImageInput, r1: real, r2: real)
    requires 0.0 <= r1 < 1.0 && 0.0 <= r2 < 1.0
    ensures ImageToImageUrl(input, r1) == SeedlessUrl(input) + NatToString(RandomSeed(r1))
    ensures ImageToImageUrl(input, r2) == SeedlessUrl(input) + NatToString(RandomSeed(r2))
    ensures ImageToImageUrl(input, r1) == ImageToImageUrl(input, r2) <==> RandomSeed(r1) == RandomSeed(r2)
  {
    var prefix := SeedlessUrl(input);
    var u1, u2 := ImageToImageUrl(input, r1), ImageToImageUrl(input, r2);
    if u1 == u2 {
      assert u1[|prefix|..] == NatToString(RandomSeed(r1));
      assert u2[|prefix|..] == NatToString(RandomSeed(r2));
      NatToStringInjective(RandomSeed(r1), RandomSeed(r2));
    }
  }
}
