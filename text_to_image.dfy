/** The text-to-image flow: builds the request URL from a prompt and the
    optional generation settings. Every optional setting that is truthy in
    JavaScript's sense becomes one query parameter, in a fixed order. */
module TextToImage {
  import opened Wrappers
  import opened Decimal
  import opened UrlEncoding
  import opened FormUrlEncoded
  import opened Pollinations

  /** The flow's input; width, height and seed are modelled as naturals. */
  datatype TextToImageInput = TextToImageInput(
    prompt: string,
    width: Option<nat>,
    height: Option<nat>,
    seed: Option<nat>,
    model: Option<string>,
    transparent: Option<bool>,
    image: Option<string>,
    nologo: Option<bool>,
    private: Option<bool>,
    enhance: Option<bool>,
    safe: Option<bool>)

  /** The optional settings that can become query parameters. */
  datatype Key = Width | Height | Seed | Model | Transparent | Image | NoLogo | Private | Enhance | Safe

  /** The query parameter name of each setting. */
  function Name(k: Key): string {
    match k
    case Width => "width"
    case Height => "height"
    case Seed => "seed"
    case Model => "model"
    case Transparent => "transparent"
    case Image => "image"
    case NoLogo => "nologo"
    case Private => "private"
    case Enhance => "enhance"
    case Safe => "safe"
  }

  /** The order in which the flow considers the settings. */
  const QueryKeys: seq<Key> :=
    [Width, Height, Seed, Model, Transparent, Image, NoLogo, Private, Enhance, Safe]

  // JavaScript truthiness of the optional fields: `undefined`, `0`, `""` and
  // `false` are falsy.

  predicate IsTruthyNumber(x: Option<nat>) {
    x.Some? && x.value != 0
  }

  predicate IsTruthyText(x: Option<string>) {
    x.Some? && x.value != ""
  }

  predicate IsTruthyFlag(x: Option<bool>) {
    x == Some(true)
  }

  /** `Boolean.prototype.toString`. */
  function BoolToString(b: bool): string {
    if b then "true" else "false"
  }

  function NumberParam(x: Option<nat>): Option<string> {
    if IsTruthyNumber(x) then Some(NatToString(x.value)) else None
  }

  function TextParam(x: Option<string>): Option<string> {
    if IsTruthyText(x) then Some(x.value) else None
  }

  function FlagParam(x: Option<bool>): Option<string> {
    if IsTruthyFlag(x) then Some(BoolToString(x.value)) else None
  }

  /** The value appended for a setting, or `None` when its field is falsy. */
  function Param(input: TextToImageInput, k: Key): Option<string> {
    match k
    case Width => NumberParam(input.width)
    case Height => NumberParam(input.height)
    case Seed => NumberParam(input.seed)
    case Model => TextParam(input.model)
    case Transparent => FlagParam(input.transparent)
    case Image => TextParam(input.image)
    case NoLogo => FlagParam(input.nologo)
    case Private => FlagParam(input.private)
    case Enhance => FlagParam(input.enhance)
    case Safe => FlagParam(input.safe)
  }

  /** The pairs appended for one setting: none or one. */
  function Item(input: TextToImageInput, k: Key): seq<Pair> {
    match Param(input, k)
    case Some(v) => [(Name(k), v)]
    case None => []
  }

  /** The pairs appended when the settings are considered in the order given. */
  function Appended(input: TextToImageInput, keys: seq<Key>): (ps: seq<Pair>)
    decreases |keys|
    ensures |ps| <= |keys|
    ensures forall p :: p in ps ==> p.1 != ""
  {
    if keys == [] then [] else Appended(input, keys[..|keys| - 1]) + Item(input, keys[|keys| - 1])
  }

  /** The query parameters of the request: at most one per setting, and never
      one with an empty value. */
  function QueryPairs(input: TextToImageInput): (ps: seq<Pair>)
    ensures |ps| <= |QueryKeys|
    ensures forall p :: p in ps ==> p.1 != ""
  {
    Appended(input, QueryKeys)
  }

  /** The request URL the flow returns: it starts with the endpoint, and it
      has a `?` exactly when some setting is truthy. */
  function TextToImageUrl(input: TextToImageInput): (url: string)
    ensures Endpoint <= url
    ensures '?' in url <==> QueryPairs(input) != []
  {
    PromptUrlRest(input.prompt, Serialize(QueryPairs(input)));
    PromptUrlQuestionMark(input.prompt, Serialize(QueryPairs(input)));
    PromptUrl(input.prompt, Serialize(QueryPairs(input)))
  }

  /** One guarded `params.append` of `textToImageFlow`: the setting is
      appended, as a string, only when its field is truthy. */
  method AppendIfTruthy(params: SearchParams, input: TextToImageInput, k: Key)
    modifies params
    ensures params.entries == old(params.entries) + Item(input, k)
  {
    match k
    case Width =>
      if IsTruthyNumber(input.width) {
        params.Append("width", NatToString(input.width.value));
      }
    case Height =>
      if IsTruthyNumber(input.height) {
        params.Append("height", NatToString(input.height.value));
      }
    case Seed =>
      if IsTruthyNumber(input.seed) {
        params.Append("seed", NatToString(input.seed.value));
      }
    case Model =>
      if IsTruthyText(input.model) {
        params.Append("model", input.model.value);
      }
    case Transparent =>
      if IsTruthyFlag(input.transparent) {
        params.Append("transparent", BoolToString(input.transparent.value));
      }
    case Image =>
      if IsTruthyText(input.image) {
        params.Append("image", input.image.value);
      }
    case NoLogo =>
      if IsTruthyFlag(input.nologo) {
        params.Append("nologo", BoolToString(input.nologo.value));
      }
    case Private =>
      if IsTruthyFlag(input.private) {
        params.Append("private", BoolToString(input.private.value));
      }
    case Enhance =>
      if IsTruthyFlag(input.enhance) {
        params.Append("enhance", BoolToString(input.enhance.value));
      }
    case Safe =>
      if IsTruthyFlag(input.safe) {
        params.Append("safe", BoolToString(input.safe.value));
      }
  }

  /** The `i`-th guarded append, in source order, extends the pairs of the
      settings before it by that setting's pairs. */
  method AppendNext(params: SearchParams, input: TextToImageInput, i: nat)
    requires i < |QueryKeys| && params.entries == Appended(input, QueryKeys[..i])
    modifies params
    ensures params.entries == Appended(input, QueryKeys[..i + 1])
  {
    AppendIfTruthy(params, input, QueryKeys[i]);
    AppendedSnoc(input, QueryKeys[..i], QueryKeys[i]);
    assert QueryKeys[..i] + [QueryKeys[i]] == QueryKeys[..i + 1];
  }

  /** The first half of `textToImageFlow`: a fresh `URLSearchParams` filled
      by the ten guarded appends, in source order. */
  method BuildQuery(input: TextToImageInput) returns (params: SearchParams)
    ensures fresh(params)
    ensures params.entries == QueryPairs(input)
  {
    params := new SearchParams();
    assert QueryKeys[..0] == [];
    AppendFirst(params, input);
    AppendRest(params, input);
    AllQueryKeys(input);
  }

  /** The width, height, seed, model and transparency checks. */
  method AppendFirst(params: SearchParams, input: TextToImageInput)
    requires params.entries == Appended(input, QueryKeys[..0])
    modifies params
    ensures params.entries == Appended(input, QueryKeys[..5])
  {
    AppendNext(params, input, 0);
    AppendNext(params, input, 1);
    AppendNext(params, input, 2);
    AppendNext(params, input, 3);
    AppendNext(params, input, 4);
  }

  /** The image, logo, privacy, enhancement and safety checks. */
  method AppendRest(params: SearchParams, input: TextToImageInput)
    requires params.entries == Appended(input, QueryKeys[..5])
    modifies params
    ensures params.entries == Appended(input, QueryKeys[..10])
  {
    AppendNext(params, input, 5);
    AppendNext(params, input, 6);
    AppendNext(params, input, 7);
    AppendNext(params, input, 8);
    AppendNext(params, input, 9);
  }

  lemma AllQueryKeys(input: TextToImageInput)
    ensures Appended(input, QueryKeys[..10]) == QueryPairs(input)
  {
    assert QueryKeys[..10] == QueryKeys;
  }

  /** `textToImageFlow`: the query built from the truthy settings, joined to
      the endpoint and the encoded prompt. It never fails and always returns
      a URL. */
  method TextToImageFlow(input: TextToImageInput) returns (imageUrl: string)
    ensures imageUrl == TextToImageUrl(input)
  {
    var params := BuildQuery(input);
    var queryString := params.ToString();
    imageUrl := Endpoint + EncodeUriComponent(input.prompt) + (if queryString != "" then "?" + queryString else "");
  }

  // ---------------------------------------------------------------------------
  // Properties of the query

  function KeysOf(pairs: seq<Pair>): (ks: seq<string>)
    ensures |ks| == |pairs|
    ensures forall i :: 0 <= i < |pairs| ==> ks[i] == pairs[i].0
  {
    if pairs == [] then [] else [pairs[0].0] + KeysOf(pairs[1..])
  }

  function Names(keys: seq<Key>): (ns: seq<string>)
    ensures |ns| == |keys|
    ensures forall i :: 0 <= i < |keys| ==> ns[i] == Name(keys[i])
  {
    if keys == [] then [] else [Name(keys[0])] + Names(keys[1..])
  }

  /** `a` is `b` with some elements left out. */
  predicate IsSubsequence<T(==)>(a: seq<T>, b: seq<T>)
    decreases |b|
  {
    a == [] ||
    (b != [] && ((a[0] == b[0] && IsSubsequence(a[1..], b[1..])) || IsSubsequence(a, b[1..])))
  }

  predicate Distinct<T(==)>(s: seq<T>) {
    forall i, j :: 0 <= i < j < |s| ==> s[i] != s[j]
  }

  lemma NameInjective(a: Key, b: Key)
    requires Name(a) == Name(b)
    ensures a == b
  {
    assert |Name(a)| == |Name(b)| && Name(a)[0] == Name(b)[0];
  }

  /** Considering one more setting appends its pairs at the end. */
  lemma AppendedSnoc(input: TextToImageInput, keys: seq<Key>, k: Key)
    ensures Appended(input, keys + [k]) == Appended(input, keys) + Item(input, k)
  {
    assert (keys + [k])[..|keys|] == keys;
  }

  lemma {:induction false} AppendedConcat(input: TextToImageInput, a: seq<Key>, b: seq<Key>)
    ensures Appended(input, a + b) == Appended(input, a) + Appended(input, b)
    decreases |b|
  {
    if b != [] {
      var last := b[|b| - 1];
      var front := b[..|b| - 1];
      assert (a + b)[..|a + b| - 1] == a + front;
      assert (a + b)[|a + b| - 1] == last;
      assert Appended(input, a + b) == Appended(input, a + front) + Item(input, last);
      assert Appended(input, b) == Appended(input, front) + Item(input, last);
      AppendedConcat(input, a, front);
    } else {
      assert a + b == a;
    }
  }

  lemma AppendedCons(input: TextToImageInput, keys: seq<Key>)
    requires keys != []
    ensures Appended(input, keys) == Item(input, keys[0]) + Appended(input, keys[1..])
  {
    AppendedConcat(input, [keys[0]], keys[1..]);
    assert [keys[0]] + keys[1..] == keys;
    AppendedSingle(input, keys[0]);
  }

  lemma AppendedSingle(input: TextToImageInput, k: Key)
    ensures Appended(input, [k]) == Item(input, k)
  {
    AppendedSnoc(input, [], k);
    assert [] + [k] == [k];
  }

  /** A setting's pair is among those appended if and only if the setting is
      among those considered and its field is truthy, and then it carries the
      field's value. */
  lemma {:induction false} AppendedPair(input: TextToImageInput, keys: seq<Key>, k: Key, v: string)
    ensures (Name(k), v) in Appended(input, keys) <==> k in keys && Param(input, k) == Some(v)
    decreases |keys|
  {
    if keys != [] {
      AppendedPair(input, keys[1..], k, v);
      AppendedCons(input, keys);
      if (Name(k), v) in Item(input, keys[0]) {
        NameInjective(k, keys[0]);
      }
      assert k in keys <==> k == keys[0] || k in keys[1..];
    }
  }

  /** Every pair appended is some setting's. */
  lemma {:induction false} AppendedNamed(input: TextToImageInput, keys: seq<Key>, p: Pair)
    requires p in Appended(input, keys)
    ensures exists k :: k in keys && p.0 == Name(k) && Param(input, k) == Some(p.1)
    decreases |keys|
  {
    AppendedCons(input, keys);
    if p !in Item(input, keys[0]) {
      AppendedNamed(input, keys[1..], p);
      var k :| k in keys[1..] && p.0 == Name(k) && Param(input, k) == Some(p.1);
      assert k in keys;
    }
  }

  /** The names come in the order the settings are considered. */
  lemma {:induction false} AppendedOrder(input: TextToImageInput, keys: seq<Key>)
    ensures IsSubsequence(KeysOf(Appended(input, keys)), Names(keys))
    decreases |keys|
  {
    if keys != [] {
      AppendedOrder(input, keys[1..]);
      AppendedCons(input, keys);
      var head := Item(input, keys[0]);
      var tail := Appended(input, keys[1..]);
      var ks := KeysOf(head + tail);
      assert Names(keys)[1..] == Names(keys[1..]);
      if head != [] {
        assert ks[0] == Names(keys)[0];
        assert ks[1..] == KeysOf(tail);
      } else {
        assert head + tail == tail;
      }
    }
  }

  lemma {:induction false} SubsequenceMembers<T>(a: seq<T>, b: seq<T>)
    requires IsSubsequence(a, b)
    ensures forall x :: x in a ==> x in b
    decreases |b|
  {
    if a != [] {
      if a[0] == b[0] && IsSubsequence(a[1..], b[1..]) {
        SubsequenceMembers(a[1..], b[1..]);
        assert a == [a[0]] + a[1..];
      } else {
        SubsequenceMembers(a, b[1..]);
      }
    }
  }

  /** A subsequence of a sequence without repetitions has none either. */
  lemma {:induction false} SubsequenceDistinct<T>(a: seq<T>, b: seq<T>)
    requires IsSubsequence(a, b) && Distinct(b)
    ensures Distinct(a)
    decreases |b|
  {
    if a != [] {
      if a[0] == b[0] && IsSubsequence(a[1..], b[1..]) {
        SubsequenceDistinct(a[1..], b[1..]);
        SubsequenceMembers(a[1..], b[1..]);
        assert b[0] !in b[1..];
        assert forall j :: 1 <= j < |a| ==> a[j] in a[1..];
      } else {
        SubsequenceDistinct(a, b[1..]);
      }
    }
  }

  /** The place of each setting in the fixed order. */
  function Position(k: Key): nat {
    match k
    case Width => 0
    case Height => 1
    case Seed => 2
    case Model => 3
    case Transparent => 4
    case Image => 5
    case NoLogo => 6
    case Private => 7
    case Enhance => 8
    case Safe => 9
  }

  lemma QueryKeysPositions()
    ensures forall i :: 0 <= i < |QueryKeys| ==> Position(QueryKeys[i]) == i
  {
  }

  lemma QueryKeysDistinct()
    ensures Distinct(QueryKeys)
  {
    QueryKeysPositions();
  }

  /** Distinct settings have distinct names. */
  lemma NamesDistinct(keys: seq<Key>)
    requires Distinct(keys)
    ensures Distinct(Names(keys))
  {
    forall i, j | 0 <= i < j < |keys|
      ensures Names(keys)[i] != Names(keys)[j]
    {
      if Name(keys[i]) == Name(keys[j]) {
        NameInjective(keys[i], keys[j]);
      }
    }
  }

  lemma QueryKeyNamesDistinct()
    ensures Distinct(Names(QueryKeys))
  {
    QueryKeysDistinct();
    NamesDistinct(QueryKeys);
  }

  /** The query's parameters: exactly the truthy settings, each with its
      field's value, in the fixed order width, height, seed, model,
      transparent, image, nologo, private, enhance, safe, each name at most
      once. */
  lemma QueryKeysExactlyTruthy(input: TextToImageInput)
    ensures forall k, v :: (Name(k), v) in QueryPairs(input) <==> Param(input, k) == Some(v)
    ensures forall p :: p in QueryPairs(input) ==> exists k :: p.0 == Name(k) && Param(input, k) == Some(p.1)
    ensures IsSubsequence(KeysOf(QueryPairs(input)), Names(QueryKeys))
    ensures Distinct(KeysOf(QueryPairs(input)))
  {
    QueryPairsTruthy(input);
    QueryKeysOrdered(input);
  }

  lemma QueryPairsTruthy(input: TextToImageInput)
    ensures forall k, v :: (Name(k), v) in QueryPairs(input) <==> Param(input, k) == Some(v)
    ensures forall p :: p in QueryPairs(input) ==> exists k :: p.0 == Name(k) && Param(input, k) == Some(p.1)
  {
    forall k, v
      ensures (Name(k), v) in QueryPairs(input) <==> Param(input, k) == Some(v)
    {
      AppendedPair(input, QueryKeys, k, v);
    }
    forall p | p in QueryPairs(input)
      ensures exists k :: p.0 == Name(k) && Param(input, k) == Some(p.1)
    {
      AppendedNamed(input, QueryKeys, p);
    }
  }

  lemma QueryKeysOrdered(input: TextToImageInput)
    ensures IsSubsequence(KeysOf(QueryPairs(input)), Names(QueryKeys))
    ensures Distinct(KeysOf(QueryPairs(input)))
  {
    AppendedOrder(input, QueryKeys);
    QueryKeyNamesDistinct();
    SubsequenceDistinct(KeysOf(QueryPairs(input)), Names(QueryKeys));
  }

  /** A setting whose field is absent or falsy names no query parameter. */
  lemma AbsentSettingOmitted(input: TextToImageInput, k: Key)
    requires Param(input, k).None?
    ensures Name(k) !in KeysOf(QueryPairs(input))
  {
    var q := QueryPairs(input);
    if Name(k) in KeysOf(q) {
      var i :| 0 <= i < |q| && KeysOf(q)[i] == Name(k);
      assert q[i] == (Name(k), q[i].1);
      AppendedPair(input, QueryKeys, k, q[i].1);
    }
  }

  /** Falsy settings are left out: a zero number, an empty string and `false`
      add nothing. */
  lemma FalsySettingsOmitted(input: TextToImageInput)
    ensures input.width == Some(0) ==> "width" !in KeysOf(QueryPairs(input))
    ensures input.height == Some(0) ==> "height" !in KeysOf(QueryPairs(input))
    ensures input.seed == Some(0) ==> "seed" !in KeysOf(QueryPairs(input))
    ensures input.model == Some("") ==> "model" !in KeysOf(QueryPairs(input))
    ensures input.image == Some("") ==> "image" !in KeysOf(QueryPairs(input))
    ensures input.transparent == Some(false) ==> "transparent" !in KeysOf(QueryPairs(input))
    ensures input.nologo == Some(false) ==> "nologo" !in KeysOf(QueryPairs(input))
    ensures input.private == Some(false) ==> "private" !in KeysOf(QueryPairs(input))
    ensures input.enhance == Some(false) ==> "enhance" !in KeysOf(QueryPairs(input))
    ensures input.safe == Some(false) ==> "safe" !in KeysOf(QueryPairs(input))
  {
    if input.width == Some(0) { AbsentSettingOmitted(input, Width); }
    if input.height == Some(0) { AbsentSettingOmitted(input, Height); }
    if input.seed == Some(0) { AbsentSettingOmitted(input, Seed); }
    if input.model == Some("") { AbsentSettingOmitted(input, Model); }
    if input.image == Some("") { AbsentSettingOmitted(input, Image); }
    if input.transparent == Some(false) { AbsentSettingOmitted(input, Transparent); }
    if input.nologo == Some(false) { AbsentSettingOmitted(input, NoLogo); }
    if input.private == Some(false) { AbsentSettingOmitted(input, Private); }
    if input.enhance == Some(false) { AbsentSettingOmitted(input, Enhance); }
    if input.safe == Some(false) { AbsentSettingOmitted(input, Safe); }
  }

  /** A boolean flag that reaches the query is always the string `true`. */
  lemma FlagsAreTrue(input: TextToImageInput, k: Key, v: string)
    requires k in {Transparent, NoLogo, Private, Enhance, Safe}
    requires (Name(k), v) in QueryPairs(input)
    ensures v == "true"
  {
    AppendedPair(input, QueryKeys, k, v);
  }

  /** The prompt comes back from the path segment, and the query parses to
      exactly the query pairs. */
  lemma TextToImageUrlRoundTrip(input: TextToImageInput)
    ensures Endpoint <= TextToImageUrl(input)
    ensures DecodeUriComponent(PathSegment(TextToImageUrl(input))) == Some(input.prompt)
    ensures ParseQuery(QueryPart(TextToImageUrl(input))) == Some(QueryPairs(input))
  {
    PromptUrlParts(input.prompt, Serialize(QueryPairs(input)));
    ParseSerialize(QueryPairs(input));
  }

  lemma {:induction false} AppendedNothing(input: TextToImageInput, keys: seq<Key>)
    requires forall k :: k in keys ==> Param(input, k).None?
    ensures Appended(input, keys) == []
    decreases |keys|
  {
    if keys != [] {
      AppendedNothing(input, keys[..|keys| - 1]);
    }
  }

  /** With no truthy optional setting the URL is the endpoint and the encoded
      prompt, with no `?` at all. */
  lemma NoSettingsNoQuery(input: TextToImageInput)
    requires forall k :: Param(input, k).None?
    ensures TextToImageUrl(input) == Endpoint + EncodeUriComponent(input.prompt)
    ensures '?' !in TextToImageUrl(input)
  {
    AppendedNothing(input, QueryKeys);
    PromptUrlParts(input.prompt, "");
  }

  /** When only the dimensions and the seed can be set, the query holds at
      most those three, in that order. */
  lemma DimensionsOnlyQuery(input: TextToImageInput)
    requires input.model.None? && input.transparent.None? && input.image.None?
    requires input.nologo.None? && input.private.None? && input.enhance.None? && input.safe.None?
    ensures QueryPairs(input) == Item(input, Width) + Item(input, Height) + Item(input, Seed)
  {
    var front: seq<Key> := [Width, Height, Seed];
    var back: seq<Key> := [Model, Transparent, Image, NoLogo, Private, Enhance, Safe];
    assert QueryKeys == front + back;
    AppendedConcat(input, front, back);
    AppendedNothing(input, back);
    assert Appended(input, front) == Appended(input, [Width, Height]) + Item(input, Seed) by {
      assert front[..2] == [Width, Height];
    }
    assert Appended(input, [Width, Height]) == Appended(input, [Width]) + Item(input, Height) by {
      assert [Width, Height][..1] == [Width];
    }
    assert Appended(input, [Width]) == Item(input, Width) by {
      assert [Width][..0] == [];
      assert Appended(input, []) == [];
    }
  }
}
