/** The generator page: the layout presets, the advanced settings and their
    reset, the fields the form submits, the download link, and the history of
    generated images with its copy in the browser's local storage under the
    key `arty-ai-history`.

    Storage is modelled by the value under that key: absent, the serialization
    of a list of items (the JSON round trip is taken as given), or text that
    does not parse. Whether a storage call throws is a parameter of the handler
    that makes it. */
module Generator {
  import opened Wrappers
  import opened Decimal
  import opened UrlEncoding
  import opened FormUrlEncoded
  import opened Pollinations
  import TextToImage
  import opened Actions

  datatype HistoryItem = HistoryItem(id: string, prompt: string, imageUrl: string, timestamp: int)

  // ---------------------------------------------------------------------------
  // Layouts and advanced settings

  datatype LayoutKey = Square | Portrait | Reel | FbCover | YtThumbnail | DefaultLayout

  datatype Layout = Layout(width: nat, height: nat, name: string)

  /** The preset table: every preset has a positive width and height. */
  function LayoutOf(key: LayoutKey): (l: Layout)
    ensures l.width > 0 && l.height > 0
  {
    match key
    case Square => Layout(1080, 1080, "Instagram Post (Square)")
    case Portrait => Layout(1080, 1350, "Instagram Post (Portrait)")
    case Reel => Layout(1080, 1920, "Instagram Reel/Story")
    case FbCover => Layout(851, 315, "Facebook Cover")
    case YtThumbnail => Layout(1280, 720, "YouTube Thumbnail")
    case DefaultLayout => Layout(1024, 1024, "Default (1024x1024)")
  }

  /** The models the model menu offers. */
  const Models: seq<string> := ["flux", "kontext", "turbo", "gptimage"]

  datatype AdvancedSettings = AdvancedSettings(model: string, enhance: bool, nologo: bool, private: bool, safe: bool)

  const DefaultAdvanced: AdvancedSettings := AdvancedSettings("flux", false, false, false, false)

  /** The four switches of the advanced settings. */
  datatype SwitchName = EnhanceSwitch | NoLogoSwitch | PrivateSwitch | SafeSwitch

  function WithSwitch(s: AdvancedSettings, switch: SwitchName, checked: bool): (r: AdvancedSettings)
    ensures r.model == s.model
    ensures r.enhance == (if switch == EnhanceSwitch then checked else s.enhance)
    ensures r.nologo == (if switch == NoLogoSwitch then checked else s.nologo)
    ensures r.private == (if switch == PrivateSwitch then checked else s.private)
    ensures r.safe == (if switch == SafeSwitch then checked else s.safe)
  {
    match switch
    case EnhanceSwitch => s.(enhance := checked)
    case NoLogoSwitch => s.(nologo := checked)
    case PrivateSwitch => s.(private := checked)
    case SafeSwitch => s.(safe := checked)
  }

  /** `Math.floor(random * n)`: an index into a list of `n` elements. */
  function RandomIndex(random: real, n: nat): (i: nat)
    requires 0.0 <= random < 1.0 && n > 0
    ensures i < n
  {
    var x := random * n as real;
    assert x < n as real by {
      ProductBelow(random, n as real);
    }
    x.Floor
  }

  /** A fraction below one of a positive quantity stays below it. */
  lemma ProductBelow(r: real, m: real)
    requires 0.0 <= r < 1.0 && m > 0.0
    ensures r * m < m
  {
    assert m - r * m == (1.0 - r) * m;
    assert (1.0 - r) * m > 0.0;
  }

  // ---------------------------------------------------------------------------
  // The submitted form and the download link

  /** The entries the switches add: a checked switch submits `on`, an
      unchecked one submits nothing. */
  function SwitchEntries(s: AdvancedSettings): FormFields {
    (if s.enhance then map["enhance" := "on"] else map[]) +
    (if s.nologo then map["nologo" := "on"] else map[]) +
    (if s.private then map["private" := "on"] else map[]) +
    (if s.safe then map["safe" := "on"] else map[])
  }

  /** The form data the page submits: the fixed mode, the selected layout's
      dimensions, the prompt, the seed field as typed, the model and the
      checked switches. The layout menu itself has no field name and submits
      nothing. */
  function SubmittedForm(prompt: string, layout: LayoutKey, advanced: AdvancedSettings, seedInput: string): (form: FormFields)
    ensures "image" !in form
  {
    SchemaFieldsAreNotSwitches();
    SwitchEntriesNames(advanced);
    FixedEntries(prompt, layout, advanced.model, seedInput) + SwitchEntries(advanced)
  }

  /** The fields every submission carries. */
  function FixedEntries(prompt: string, layout: LayoutKey, model: string, seedInput: string): FormFields {
    map[
      "mode" := "text-to-image",
      "width" := NatToString(LayoutOf(layout).width),
      "height" := NatToString(LayoutOf(layout).height),
      "prompt" := prompt,
      "seed" := seedInput,
      "model" := model
    ]
  }

  const DownloadPath: string := "/api/download"

  /** `/api/download?url=${encodeURIComponent(imageUrl)}`. */
  /** After `?url=` nothing in the link can start another parameter, a
      fragment or a path segment. */
  function DownloadHref(imageUrl: string): (href: string)
    ensures DownloadPath + "?url=" <= href
    ensures forall i :: |DownloadPath| + 5 <= i < |href| ==> href[i] !in "/?#&=+"
  {
    var prefix := DownloadPath + "?url=";
    var enc := EncodeUriComponent(imageUrl);
    var href := prefix + enc;
    assert |prefix| == |DownloadPath| + 5;
    assert forall i :: |prefix| <= i < |href| ==> href[i] == enc[i - |prefix|];
    href
  }

  // ---------------------------------------------------------------------------
  // History

  /** `items.filter(item => item.id !== id)`. */
  function WithoutId(items: seq<HistoryItem>, id: string): (r: seq<HistoryItem>)
    ensures |r| <= |items|
  {
    if items == [] then []
    else if items[0].id != id then [items[0]] + WithoutId(items[1..], id)
    else WithoutId(items[1..], id)
  }

  /** The filter keeps exactly the items with another id. */
  lemma {:induction false} WithoutIdMembers(items: seq<HistoryItem>, id: string)
    ensures forall x :: x in WithoutId(items, id) <==> x in items && x.id != id
    decreases |items|
  {
    if items != [] {
      WithoutIdMembers(items[1..], id);
      assert forall x :: x in items <==> x == items[0] || x in items[1..];
    }
  }

  /** The value under the history key. */
  datatype StoredValue = Serialized(items: seq<HistoryItem>) | Unparseable

  /** What loading finds: the stored list when there is one that parses;
      otherwise the history stays as it is. */
  function LoadedHistory(stored: Option<StoredValue>, current: seq<HistoryItem>): (h: seq<HistoryItem>)
    ensures forall items :: stored == Some(Serialized(items)) ==> h == items
    ensures stored == None || stored == Some(Unparseable) ==> h == current
  {
    match stored
    case Some(Serialized(items)) => items
    case _ => current
  }

  class ImageGenerator {
    var history: seq<HistoryItem>
    var stored: Option<StoredValue>
    var prompt: string
    var advanced: AdvancedSettings
    var layout: LayoutKey

    /** A fresh page over whatever storage holds. */
    constructor (storage: Option<StoredValue>)
      ensures history == [] && stored == storage
      ensures prompt == "" && advanced == DefaultAdvanced && layout == DefaultLayout
    {
      history := [];
      stored := storage;
      prompt := "";
      advanced := DefaultAdvanced;
      layout := DefaultLayout;
    }

    /** The storage copy is the serialization of the history in memory. */
    predicate Persisted()
      reads this
    {
      stored == Some(Serialized(history))
    }

    /** The mount effect: reads the stored list; text that does not parse is
        logged and ignored. Storage is not written. */
    method LoadHistory()
      modifies this
      ensures history == LoadedHistory(old(stored), old(history))
      ensures stored == old(stored) && prompt == old(prompt)
      ensures advanced == old(advanced) && layout == old(layout)
    {
      match stored {
        case Some(Serialized(items)) => history := items;
        case _ =>
      }
    }

    /** `handleNewImage`: the item goes in front of the history and its prompt
        into the prompt field; the new list is written to storage, and a write
        that throws leaves storage as it was without undoing the update. */
    method HandleNewImage(item: HistoryItem, writeOk: bool)
      modifies this
      ensures history == [item] + old(history)
      ensures prompt == item.prompt
      ensures stored == (if writeOk then Some(Serialized(history)) else old(stored))
      ensures writeOk ==> Persisted()
      ensures advanced == old(advanced) && layout == old(layout)
    {
      prompt := item.prompt;
      var newHistory := [item] + history;
      if writeOk {
        stored := Some(Serialized(newHistory));
      }
      history := newHistory;
    }

    /** `handleDeleteHistoryItem`: every item with the id is removed, the rest
        keep their order; the new list is written as for a new image. */
    method HandleDeleteHistoryItem(id: string, writeOk: bool)
      modifies this
      ensures history == WithoutId(old(history), id)
      ensures stored == (if writeOk then Some(Serialized(history)) else old(stored))
      ensures writeOk ==> Persisted()
      ensures prompt == old(prompt) && advanced == old(advanced) && layout == old(layout)
    {
      var updatedHistory := WithoutId(history, id);
      if writeOk {
        stored := Some(Serialized(updatedHistory));
      }
      history := updatedHistory;
    }

    /** `handleClearHistory`: the history is emptied and the key removed; a
        removal that throws leaves storage as it was. */
    method HandleClearHistory(removeOk: bool)
      modifies this
      ensures history == []
      ensures stored == (if removeOk then None else old(stored))
      ensures prompt == old(prompt) && advanced == old(advanced) && layout == old(layout)
    {
      history := [];
      if removeOk {
        stored := None;
      }
    }

    /** `handleRandomPrompt`: one of the sample prompts, picked by the draw. */
    method HandleRandomPrompt(samples: seq<string>, random: real)
      requires 0.0 <= random < 1.0 && |samples| > 0
      modifies this
      ensures prompt == samples[RandomIndex(random, |samples|)] && prompt in samples
      ensures history == old(history) && stored == old(stored)
      ensures advanced == old(advanced) && layout == old(layout)
    {
      prompt := samples[RandomIndex(random, |samples|)];
    }

    /** `handleResetAdvanced`: back to the defaults, whatever was chosen. */
    method HandleResetAdvanced()
      modifies this
      ensures advanced == DefaultAdvanced
      ensures history == old(history) && stored == old(stored)
      ensures prompt == old(prompt) && layout == old(layout)
    {
      advanced := DefaultAdvanced;
    }

    /** The model menu's change handler. */
    method SelectModel(model: string)
      modifies this
      ensures advanced == old(advanced).(model := model)
      ensures history == old(history) && stored == old(stored)
      ensures prompt == old(prompt) && layout == old(layout)
    {
      advanced := advanced.(model := model);
    }

    /** A switch's change handler: only that switch changes. */
    method ToggleSwitch(switch: SwitchName, checked: bool)
      modifies this
      ensures advanced == WithSwitch(old(advanced), switch, checked)
      ensures history == old(history) && stored == old(stored)
      ensures prompt == old(prompt) && layout == old(layout)
    {
      advanced := WithSwitch(advanced, switch, checked);
    }

    /** The layout menu's change handler. */
    method SelectLayout(key: LayoutKey)
      modifies this
      ensures layout == key
      ensures history == old(history) && stored == old(stored)
      ensures prompt == old(prompt) && advanced == old(advanced)
    {
      layout := key;
    }

    /** The prompt field's change handler. */
    method EditPrompt(text: string)
      modifies this
      ensures prompt == text
      ensures history == old(history) && stored == old(stored)
      ensures advanced == old(advanced) && layout == old(layout)
    {
      prompt := text;
    }

  }

  // ---------------------------------------------------------------------------
  // Properties

  /** Deleting keeps the survivors in their order: the filter distributes
      over concatenation. */
  lemma {:induction false} WithoutIdConcat(a: seq<HistoryItem>, b: seq<HistoryItem>, id: string)
    ensures WithoutId(a + b, id) == WithoutId(a, id) + WithoutId(b, id)
    decreases |a|
  {
    if a != [] {
      WithoutIdConcat(a[1..], b, id);
      assert (a + b)[1..] == a[1..] + b;
    } else {
      assert a + b == b;
    }
  }

  /** Deleting an id that no item has changes nothing. */
  lemma {:induction false} WithoutAbsentId(items: seq<HistoryItem>, id: string)
    requires forall x :: x in items ==> x.id != id
    ensures WithoutId(items, id) == items
    decreases |items|
  {
    if items != [] {
      WithoutAbsentId(items[1..], id);
      assert [items[0]] + items[1..] == items;
    }
  }

  /** Deleting twice is deleting once. */
  lemma WithoutIdIdempotent(items: seq<HistoryItem>, id: string)
    ensures WithoutId(WithoutId(items, id), id) == WithoutId(items, id)
  {
    WithoutIdMembers(items, id);
    WithoutAbsentId(WithoutId(items, id), id);
  }

  /** Deleting the id of a newly added item that was the only one with it
      gives back the history before the addition. */
  lemma WithoutNewItem(item: HistoryItem, history: seq<HistoryItem>)
    requires forall x :: x in history ==> x.id != item.id
    ensures WithoutId([item] + history, item.id) == history
  {
    WithoutAbsentId(history, item.id);
    assert ([item] + history)[1..] == history;
  }

  /** A new image whose write succeeds is still there after a reload: a fresh
      page over the same storage loads exactly the history in memory. */
  method ReloadAfterNewImage(page: ImageGenerator, item: HistoryItem) returns (reloaded: ImageGenerator)
    modifies page
    ensures fresh(reloaded)
    ensures page.history == [item] + old(page.history)
    ensures reloaded.history == page.history && reloaded.stored == page.stored
  {
    page.HandleNewImage(item, true);
    reloaded := new ImageGenerator(page.stored);
    reloaded.LoadHistory();
  }

  /** A deletion whose write succeeds is still in effect after a reload. */
  method ReloadAfterDelete(page: ImageGenerator, id: string) returns (reloaded: ImageGenerator)
    modifies page
    ensures fresh(reloaded)
    ensures page.history == WithoutId(old(page.history), id)
    ensures reloaded.history == page.history && reloaded.stored == page.stored
  {
    page.HandleDeleteHistoryItem(id, true);
    reloaded := new ImageGenerator(page.stored);
    reloaded.LoadHistory();
  }

  /** After a successful clear a reload finds no history at all. */
  method ReloadAfterClear(page: ImageGenerator) returns (reloaded: ImageGenerator)
    modifies page
    ensures fresh(reloaded)
    ensures page.history == [] && reloaded.history == [] && reloaded.stored == None
  {
    page.HandleClearHistory(true);
    reloaded := new ImageGenerator(page.stored);
    reloaded.LoadHistory();
  }

  /** The defaults: model `flux` with every switch off, and the model among
      those the menu offers. */
  lemma DefaultAdvancedSettings()
    ensures DefaultAdvanced.model == "flux" && DefaultAdvanced.model in Models
    ensures !DefaultAdvanced.enhance && !DefaultAdvanced.nologo
    ensures !DefaultAdvanced.private && !DefaultAdvanced.safe
    ensures SwitchEntries(DefaultAdvanced) == map[]
  {
  }

  /** The download link's query, read as the download route reads it, holds
      exactly one parameter, `url`, whose value is the image URL. */
  lemma DownloadHrefRoundTrip(imageUrl: string)
    ensures DownloadHref(imageUrl)[..|DownloadPath| + 1] == DownloadPath + "?"
    ensures ParseQuery(DownloadHref(imageUrl)[|DownloadPath| + 1..]) == Some([("url", imageUrl)])
  {
    var enc := EncodeUriComponent(imageUrl);
    var href := DownloadHref(imageUrl);
    var query := "url=" + enc;
    assert href == DownloadPath + "?" + query;
    assert href[|DownloadPath| + 1..] == query;
    assert '&' !in query by {
      assert '&' !in "url=";
    }
    UrlPairParses(imageUrl);
    ParseQueryLast(query, ("url", imageUrl));
  }

  /** `url=` followed by a component-encoded text reads back as the pair. */
  lemma UrlPairParses(imageUrl: string)
    ensures ParsePair("url=" + EncodeUriComponent(imageUrl)) == Some(("url", imageUrl))
  {
    var enc := EncodeUriComponent(imageUrl);
    var query := "url=" + enc;
    assert query == "url" + ['='] + enc;
    IndexOfAfter("url", '=', enc);
    assert query[..3] == "url";
    assert query[4..] == enc;
    DecodeEncode(imageUrl, Component, true);
    assert Encode("url", Form) == "url";
    DecodeEncode("url", Form, true);
  }

  /** The query pairs the page's form produces: the layout's dimensions, then
      the seed when the typed seed is a numeral denoting a positive number. */
  function PageQueryPairs(layout: LayoutKey, seedInput: string): seq<Pair>
    requires AllDigits(seedInput)
  {
    [("width", NatToString(LayoutOf(layout).width)), ("height", NatToString(LayoutOf(layout).height))] +
    (if DigitsValue(seedInput) == 0 then [] else [("seed", NatToString(DigitsValue(seedInput)))])
  }

  /** The field names of the four switches. */
  const SwitchNames: seq<string> := ["enhance", "nologo", "private", "safe"]

  /** None of the fields the schema reads is a switch. */
  lemma SchemaFieldsAreNotSwitches()
    ensures "prompt" !in SwitchNames && "mode" !in SwitchNames && "image" !in SwitchNames
    ensures "width" !in SwitchNames && "height" !in SwitchNames && "seed" !in SwitchNames
  {
  }

  /** The switches only ever add their own four names, each with `on`. */
  lemma SwitchEntriesNames(s: AdvancedSettings)
    ensures forall k :: k in SwitchEntries(s) ==> k in SwitchNames
  {
  }

  /** The switches never hide a field of the fixed part of the form. */
  lemma FixedFieldKept(base: FormFields, advanced: AdvancedSettings, name: string)
    requires name !in SwitchNames
    ensures Field(base + SwitchEntries(advanced), name) == Field(base, name)
  {
    SwitchEntriesNames(advanced);
  }

  /** The fields the schema reads come from the fixed part of the form. */
  lemma SubmittedFields(prompt: string, layout: LayoutKey, advanced: AdvancedSettings, seedInput: string)
    ensures var form := SubmittedForm(prompt, layout, advanced, seedInput);
      Field(form, "prompt") == Some(prompt) && Field(form, "mode") == Some("text-to-image") &&
      Field(form, "width") == Some(NatToString(LayoutOf(layout).width)) &&
      Field(form, "height") == Some(NatToString(LayoutOf(layout).height)) &&
      Field(form, "seed") == Some(seedInput) && Field(form, "image") == None
  {
    var base := FixedEntries(prompt, layout, advanced.model, seedInput);
    SchemaFieldsAreNotSwitches();
    FixedTextFields(prompt, layout, advanced.model, seedInput);
    FixedDimensionFields(prompt, layout, advanced.model, seedInput);
    FixedFieldKept(base, advanced, "prompt");
    FixedFieldKept(base, advanced, "mode");
    FixedFieldKept(base, advanced, "width");
    FixedFieldKept(base, advanced, "height");
    FixedFieldKept(base, advanced, "seed");
    FixedFieldKept(base, advanced, "image");
  }

  lemma FixedTextFields(prompt: string, layout: LayoutKey, model: string, seedInput: string)
    ensures var base := FixedEntries(prompt, layout, model, seedInput);
      Field(base, "prompt") == Some(prompt) && Field(base, "mode") == Some("text-to-image") &&
      Field(base, "seed") == Some(seedInput) && Field(base, "image") == None
  {
  }

  lemma FixedDimensionFields(prompt: string, layout: LayoutKey, model: string, seedInput: string)
    ensures var base := FixedEntries(prompt, layout, model, seedInput);
      Field(base, "width") == Some(NatToString(LayoutOf(layout).width)) &&
      Field(base, "height") == Some(NatToString(LayoutOf(layout).height))
  {
  }

  lemma SubmittedFormValidates(prompt: string, layout: LayoutKey, advanced: AdvancedSettings, seedInput: string)
    requires prompt != "" && AllDigits(seedInput)
    ensures Validate(SubmittedForm(prompt, layout, advanced, seedInput)) ==
      Success(Validated(prompt, "text-to-image", Some(LayoutOf(layout).width), Some(LayoutOf(layout).height),
                        Some(DigitsValue(seedInput)), None))
  {
    SubmittedFields(prompt, layout, advanced, seedInput);
    ValidateTextToImageFields(SubmittedForm(prompt, layout, advanced, seedInput), prompt,
                              LayoutOf(layout).width, LayoutOf(layout).height, seedInput);
  }

  /** A text-to-image form with a non-empty prompt, printed dimensions and a
      numeral as its seed passes the schema with those values. */
  lemma ValidateTextToImageFields(form: FormFields, prompt: string, width: nat, height: nat, seedInput: string)
    requires Field(form, "prompt") == Some(prompt) && prompt != ""
    requires Field(form, "mode") == Some("text-to-image")
    requires Field(form, "width") == Some(NatToString(width))
    requires Field(form, "height") == Some(NatToString(height))
    requires Field(form, "seed") == Some(seedInput) && AllDigits(seedInput)
    requires Field(form, "image") == None
    ensures Validate(form) ==
      Success(Validated(prompt, "text-to-image", Some(width), Some(height), Some(DigitsValue(seedInput)), None))
  {
    DigitsValueOfNatToString(width);
    DigitsValueOfNatToString(height);
    assert "text-to-image" == ModeNames[0];
  }

  /** End to end: a submission from the page with a non-empty prompt and a
      numeral (or nothing) in the seed field yields the request URL for the
      prompt with the selected layout's dimensions and the seed when it is
      positive. The advanced settings, though submitted, never reach it. */
  lemma PageSubmission(prompt: string, layout: LayoutKey, advanced: AdvancedSettings, seedInput: string,
                       random: real, reply: ModelReply)
    requires prompt != "" && AllDigits(seedInput) && 0.0 <= random < 1.0
    ensures GenerateImageAction(SubmittedForm(prompt, layout, advanced, seedInput), random, reply) ==
      ActionState(Some(PromptUrl(prompt, Serialize(PageQueryPairs(layout, seedInput)))), None)
  {
    var form := SubmittedForm(prompt, layout, advanced, seedInput);
    SubmittedFormValidates(prompt, layout, advanced, seedInput);
    var v := Validate(form).value;
    TextToImageSettles(form, random, reply);
    PageQuery(v, layout, seedInput);
  }

  /** The forwarded request of a page submission has the page's query. */
  lemma PageQuery(v: Validated, layout: LayoutKey, seedInput: string)
    requires AllDigits(seedInput)
    requires v == Validated(v.prompt, "text-to-image", Some(LayoutOf(layout).width), Some(LayoutOf(layout).height),
                            Some(DigitsValue(seedInput)), None)
    ensures TextToImage.QueryPairs(ForwardedInput(v)) == PageQueryPairs(layout, seedInput)
  {
    var input := ForwardedInput(v);
    var w, h := LayoutOf(layout).width, LayoutOf(layout).height;
    var seedItem := if DigitsValue(seedInput) == 0 then [] else [("seed", NatToString(DigitsValue(seedInput)))];
    TextToImage.DimensionsOnlyQuery(input);
    assert TextToImage.Item(input, TextToImage.Width) == [("width", NatToString(w))] by {
      assert TextToImage.Param(input, TextToImage.Width) == Some(NatToString(w));
    }
    assert TextToImage.Item(input, TextToImage.Height) == [("height", NatToString(h))] by {
      assert TextToImage.Param(input, TextToImage.Height) == Some(NatToString(h));
    }
    assert TextToImage.Item(input, TextToImage.Seed) == seedItem by {
      assert TextToImage.Param(input, TextToImage.Seed) == TextToImage.NumberParam(Some(DigitsValue(seedInput)));
    }
    assert [("width", NatToString(w))] + [("height", NatToString(h))] == [("width", NatToString(w)), ("height", NatToString(h))];
  }
}
