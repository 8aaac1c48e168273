/** The defensive field extractors of worker/official.py and the mapping of
    one raw variant record to its intermediate entry. A chained `.get` that
    meets a value that is not a dictionary raises in Python; here it gives
    `Err`. */
module Extract {
  import opened Wrappers
  import opened Json
  import opened Text
  import opened Lists
  import opened Records
  import opened VariantCodes
  import opened Description

  /** `get_stat`: the id under the stat's `value` block when every step is a
      dictionary and the id is an integer (a boolean counts as 0 or 1), 0 otherwise. */
  function GetStat(card: Json, key: string): (r: int)
    requires card.JObj?
    ensures match Path(card, [key, "value", "id"])
      case Some(id) => r == (if AsInt(id).Some? then AsInt(id).value else 0)
      case None => r == 0
  {
    PathStep(card, key, ["value", "id"]);
    var block := GetOr(card, key, JNull);
    if !block.JObj? then 0
    else
      var value := GetOr(block, "value", JNull);
      PathStep(block, "value", ["id"]);
      PathStep(value, "id", []);
      if value.JObj? && AsInt(GetOr(value, "id", JNull)).Some? then AsInt(GetOr(value, "id", JNull)).value
      else 0
  }

  /** The text a tag entry contributes: a plain string (when `plain` holds),
      or the string `label` of a dictionary. */
  function TagLabel(item: Json, plain: bool): (r: Option<string>)
    ensures r.Some? ==> (plain && item == JStr(r.value)) || Lookup(item, "label") == Some(JStr(r.value))
  {
    if plain && item.JStr? then Some(item.s)
    else if item.JObj? then
      match GetOr(item, "label", JNull)
      case JStr(l) => Some(l)
      case _ => None
    else None
  }

  /** The labels of `items`, in order, skipping entries that give none. */
  function Labels(items: seq<Json>, plain: bool): (r: seq<string>)
    ensures |r| <= |items|
  {
    if items == [] then []
    else
      var last := TagLabel(items[|items| - 1], plain);
      Labels(items[..|items| - 1], plain) + (if last.Some? then [last.value] else [])
  }

  lemma LabelsMembers(items: seq<Json>, plain: bool)
    ensures forall x :: x in Labels(items, plain) <==> exists i :: 0 <= i < |items| && TagLabel(items[i], plain) == Some(x)
  {
    forall x ensures x in Labels(items, plain) <==> exists i :: 0 <= i < |items| && TagLabel(items[i], plain) == Some(x) {
      if x in Labels(items, plain) {
        var i := LabelFrom(items, plain, x);
      }
      if exists i :: 0 <= i < |items| && TagLabel(items[i], plain) == Some(x) {
        var i :| 0 <= i < |items| && TagLabel(items[i], plain) == Some(x);
        LabelAt(items, plain, i);
      }
    }
  }

  /** Every label comes from an item. */
  lemma {:induction false} LabelFrom(items: seq<Json>, plain: bool, x: string) returns (i: nat)
    requires x in Labels(items, plain)
    ensures i < |items| && TagLabel(items[i], plain) == Some(x)
  {
    var init := items[..|items| - 1];
    if x in Labels(init, plain) {
      i := LabelFrom(init, plain, x);
      assert items[i] == init[i];
    } else {
      i := |items| - 1;
    }
  }

  /** Every item that gives a label contributes it. */
  lemma {:induction false} LabelAt(items: seq<Json>, plain: bool, i: nat)
    requires i < |items| && TagLabel(items[i], plain).Some?
    ensures TagLabel(items[i], plain).value in Labels(items, plain)
  {
    var init := items[..|items| - 1];
    if i < |init| {
      assert init[i] == items[i];
      LabelAt(init, plain, i);
    }
  }

  /** The items of a JSON list, none for any other value. */
  function ListItems(j: Json): seq<Json>
  {
    if j.JArr? then j.items else []
  }

  /** The tag block: `tags`, else `traits` when `tags` is false, else an
      empty dictionary. */
  function TagsBlock(card: Json): Json
    requires card.JObj?
  {
    Or(Or(GetOr(card, "tags", JNull), GetOr(card, "traits", JNull)), Empty)
  }

  /** Tag texts before de-duplication: `tags.tags` entries, then
      `values[*].label`. */
  function RawTags(card: Json): seq<string>
    requires card.JObj?
  {
    var block := TagsBlock(card);
    if !block.JObj? then []
    else Labels(ListItems(GetOr(block, "tags", JNull)), true) + Labels(ListItems(GetOr(block, "values", JNull)), false)
  }

  /** What `extract_tags` returns. */
  function TagsOf(card: Json): seq<string>
    requires card.JObj?
  {
    Dedup(RawTags(card))
  }

  /** One collecting loop of `extract_tags`: the labels of `items`, in order. */
  method CollectLabels(items: seq<Json>, plain: bool) returns (collected: seq<string>)
    ensures collected == Labels(items, plain)
  {
    collected := [];
    for i := 0 to |items|
      invariant collected == Labels(items[..i], plain)
    {
      assert items[..i + 1][..i] == items[..i];
      var t := items[i];
      if plain && t.JStr? {
        collected := collected + [t.s];
      } else if t.JObj? {
        var text := GetOr(t, "label", JNull);
        if text.JStr? {
          collected := collected + [text.s];
        }
      }
    }
    assert items[..|items|] == items;
  }

  /** `extract_tags`: collect `tags.tags`, then `values`, then keep first
      occurrences. */
  method ExtractTags(card: Json) returns (tags: seq<string>)
    requires card.JObj?
    ensures tags == TagsOf(card)
  {
    var block := TagsBlock(card);
    if !block.JObj? {
      return [];
    }
    var fromTags := CollectLabels(ListItems(GetOr(block, "tags", JNull)), true);
    var fromValues := CollectLabels(ListItems(GetOr(block, "values", JNull)), false);
    tags := DedupInOrder(fromTags + fromValues);
  }

  /** The tags are duplicate-free; every tag is a string from `tags.tags`
      (plain or a `label`) or a `values[*].label`, and every such string is a
      tag; the de-duplicated `tags.tags` entries come first, in first-seen
      order. */
  lemma TagsProperties(card: Json)
    requires card.JObj?
    ensures NoDup(TagsOf(card))
    ensures forall x :: x in TagsOf(card) ==> x in RawTags(card)
    ensures var block := TagsBlock(card);
      forall x :: x in TagsOf(card) <==>
        block.JObj? &&
        ((exists i :: 0 <= i < |ListItems(GetOr(block, "tags", JNull))| && TagLabel(ListItems(GetOr(block, "tags", JNull))[i], true) == Some(x)) ||
         (exists i :: 0 <= i < |ListItems(GetOr(block, "values", JNull))| && TagLabel(ListItems(GetOr(block, "values", JNull))[i], false) == Some(x)))
    ensures var block := TagsBlock(card);
      block.JObj? ==>
        var front := Dedup(Labels(ListItems(GetOr(block, "tags", JNull)), true));
        |front| <= |TagsOf(card)| && TagsOf(card)[..|front|] == front
    ensures forall i, j :: 0 <= i < j < |TagsOf(card)| ==>
      FirstIndex(RawTags(card), TagsOf(card)[i]) < FirstIndex(RawTags(card), TagsOf(card)[j])
  {
    var block := TagsBlock(card);
    DedupElements(RawTags(card));
    DedupOrder(RawTags(card));
    if block.JObj? {
      var a := Labels(ListItems(GetOr(block, "tags", JNull)), true);
      var b := Labels(ListItems(GetOr(block, "values", JNull)), false);
      LabelsMembers(ListItems(GetOr(block, "tags", JNull)), true);
      LabelsMembers(ListItems(GetOr(block, "values", JNull)), false);
      DedupPrefix(a, b);
    }
  }

  /** `extract_colors`: the string labels of `domain.values`, in order and
      with repeats, the entries without one skipped; a `domain` that is not
      a dictionary raises. */
  function ExtractColors(card: Json): (r: Result<seq<string>>)
    requires card.JObj?
    ensures r.Err? <==> !GetOr(card, "domain", Empty).JObj?
    ensures r.Ok? ==> r.value == Labels(ListItems(GetOr(GetOr(card, "domain", Empty), "values", JArr([]))), false)
    ensures r.Ok? ==> forall x :: x in r.value <==>
      exists v :: v in ListItems(GetOr(GetOr(card, "domain", Empty), "values", JArr([]))) && Lookup(v, "label") == Some(JStr(x))
  {
    var domain := GetOr(card, "domain", Empty);
    var values :- DictGet(domain, "values", JArr([]));
    var items := ListItems(values);
    LabelsMembers(items, false);
    assert forall v :: v in items ==> exists i :: 0 <= i < |items| && items[i] == v;
    Ok(Labels(items, false))
  }

  /** The entries of `cardType.type` when that is a list, none otherwise. */
  function TypeEntries(card: Json): seq<Json>
  {
    match Path(card, ["cardType", "type"])
    case Some(t) => ListItems(t)
    case None => []
  }

  /** `extract_type`: the string `label` of the first entry of
      `cardType.type`, "" when there is none. A `cardType` that is not a
      dictionary, or a first entry that is not one, raises. */
  function ExtractType(card: Json): (r: Result<string>)
    requires card.JObj?
    ensures r.Err? <==> !GetOr(card, "cardType", Empty).JObj? || (TypeEntries(card) != [] && !TypeEntries(card)[0].JObj?)
    ensures r.Ok? && TypeEntries(card) != [] && TagLabel(TypeEntries(card)[0], false).Some? ==>
      r.value == TagLabel(TypeEntries(card)[0], false).value
    ensures r.Ok? && (TypeEntries(card) == [] || TagLabel(TypeEntries(card)[0], false).None?) ==> r.value == ""
  {
    var cardType := GetOr(card, "cardType", Empty);
    PathStep(card, "cardType", ["type"]);
    var typeField :- DictGet(cardType, "type", JNull);
    PathStep(cardType, "type", []);
    var typeList := Or(typeField, JArr([]));
    assert ListItems(typeList) == TypeEntries(card);
    if typeList.JArr? && typeList.items != [] then
      var first := typeList.items[0];
      var text :- DictGet(first, "label", JNull);
      if text.JStr? then Ok(text.s) else Ok("")
    else Ok("")
  }

  /** The first entry of `superType or superTypes` when it is a dictionary
      with a string label. */
  function PrimarySuper(cardType: Json): (r: Option<string>)
    requires cardType.JObj?
    ensures var list := Or(GetOr(cardType, "superType", JNull), GetOr(cardType, "superTypes", JNull));
      r.Some? <==> list.JArr? && list.items != [] && TagLabel(list.items[0], false).Some?
    ensures r.Some? ==>
      var list := Or(GetOr(cardType, "superType", JNull), GetOr(cardType, "superTypes", JNull));
      list.JArr? && list.items != [] && Lookup(list.items[0], "label") == Some(JStr(r.value))
  {
    var list := Or(GetOr(cardType, "superType", JNull), GetOr(cardType, "superTypes", JNull));
    if list.JArr? && list.items != [] && list.items[0].JObj? then
      match GetOr(list.items[0], "label", JNull)
      case JStr(l) => Some(l)
      case _ => None
    else None
  }

  /** `card.get(key)` on the card root. */
  function RootBlock(card: Json, key: string): Json
    requires card.JObj?
  {
    GetOr(card, key, JNull)
  }

  /** A dictionary block whose `value` is not a dictionary: reading its
      label raises. */
  predicate BlockRaises(blk: Json)
  {
    blk.JObj? && !GetOr(blk, "value", Empty).JObj?
  }

  /** What a block's `value.label or label` gives when it is a string. */
  function BlockText(blk: Json): Option<string>
  {
    if blk.JObj? && GetOr(blk, "value", Empty).JObj? then
      match Or(GetOr(GetOr(blk, "value", Empty), "label", JNull), GetOr(blk, "label", JNull))
      case JStr(l) => Some(l)
      case _ => None
    else None
  }

  /** A block the fallback loop passes over: it neither raises nor gives a
      label. */
  predicate BlockSkipped(blk: Json)
  {
    !BlockRaises(blk) && BlockText(blk).None?
  }

  /** The blocks `card.get(key)` of the listed keys, in order. */
  function Blocks(card: Json, keys: seq<string>): (r: seq<Json>)
    requires card.JObj?
    ensures |r| == |keys| && forall i :: 0 <= i < |keys| ==> r[i] == RootBlock(card, keys[i])
  {
    seq(|keys|, i requires 0 <= i < |keys| => RootBlock(card, keys[i]))
  }

  /** The fallback loop over the older `super` / `superType` blocks: the
      label of the first block that gives one, unless a block before it
      raises; none when every block is passed over. */
  function FallbackSuper(card: Json, keys: seq<string>): (r: Result<Option<string>>)
    requires card.JObj?
    ensures r == Ok(None) <==> forall i :: 0 <= i < |keys| ==> BlockSkipped(RootBlock(card, keys[i]))
    ensures r.Err? <==> exists i :: 0 <= i < |keys| && BlockRaises(RootBlock(card, keys[i]))
                                  && forall j :: 0 <= j < i ==> BlockSkipped(RootBlock(card, keys[j]))
    ensures r.Ok? && r.value.Some? ==>
      exists i :: 0 <= i < |keys| && BlockText(RootBlock(card, keys[i])) == r.value
                  && forall j :: 0 <= j < i ==> BlockSkipped(RootBlock(card, keys[j]))
  {
    BlocksOfKeys(card, keys, FirstLabel(Blocks(card, keys)));
    FirstLabel(Blocks(card, keys))
  }

  /** `FirstLabel`'s clauses over the blocks, read back over the keys. */
  lemma BlocksOfKeys(card: Json, keys: seq<string>, r: Result<Option<string>>)
    requires card.JObj? && r == FirstLabel(Blocks(card, keys))
    ensures r == Ok(None) <==> forall i :: 0 <= i < |keys| ==> BlockSkipped(RootBlock(card, keys[i]))
    ensures r.Err? <==> exists i :: 0 <= i < |keys| && BlockRaises(RootBlock(card, keys[i]))
                                  && forall j :: 0 <= j < i ==> BlockSkipped(RootBlock(card, keys[j]))
    ensures r.Ok? && r.value.Some? ==>
      exists i :: 0 <= i < |keys| && BlockText(RootBlock(card, keys[i])) == r.value
                  && forall j :: 0 <= j < i ==> BlockSkipped(RootBlock(card, keys[j]))
  {
    var blocks := Blocks(card, keys);
    if r.Err? {
      var i :| RaisesAt(blocks, i);
      assert BlockRaises(RootBlock(card, keys[i]));
    }
    if exists i :: 0 <= i < |keys| && BlockRaises(RootBlock(card, keys[i]))
                   && forall j :: 0 <= j < i ==> BlockSkipped(RootBlock(card, keys[j])) {
      var i :| 0 <= i < |keys| && BlockRaises(RootBlock(card, keys[i]))
                && forall j :: 0 <= j < i ==> BlockSkipped(RootBlock(card, keys[j]));
      assert RaisesAt(blocks, i);
    }
    if r.Ok? && r.value.Some? {
      var i :| TextAt(blocks, i, r.value);
      assert BlockText(RootBlock(card, keys[i])) == r.value;
    }
  }

  /** The first block, in order, that raises or gives a label decides. */
  function FirstLabel(blocks: seq<Json>): (r: Result<Option<string>>)
    ensures r == Ok(None) <==> AllSkipped(blocks)
    ensures r.Err? <==> exists i :: RaisesAt(blocks, i)
    ensures r.Ok? && r.value.Some? ==> exists i :: TextAt(blocks, i, r.value)
  {
    if blocks == [] then Ok(None)
    else if BlockRaises(blocks[0]) then
      assert RaisesAt(blocks, 0);
      Err("AttributeError: 'get' on a non-dict super value")
    else if BlockText(blocks[0]).Some? then
      assert TextAt(blocks, 0, BlockText(blocks[0]));
      assert forall i :: RaisesAt(blocks, i) ==> i == 0;
      Ok(BlockText(blocks[0]))
    else
      var rest := FirstLabel(blocks[1..]);
      SkippedShift(blocks);
      RaisesShift(blocks);
      if rest.Ok? && rest.value.Some? then
        TextShift(blocks, rest.value);
        rest
      else rest
  }

  /** Every block is passed over. */
  predicate AllSkipped(blocks: seq<Json>)
  {
    forall i :: 0 <= i < |blocks| ==> BlockSkipped(blocks[i])
  }

  /** With the first block skipped, the remaining ones decide; the three
      lemmas below carry each clause of `FirstLabel` over. */
  lemma SkippedShift(blocks: seq<Json>)
    requires blocks != [] && BlockSkipped(blocks[0])
    ensures AllSkipped(blocks[1..]) <==> AllSkipped(blocks)
  {
    assert forall i :: 0 < i < |blocks| ==> blocks[i] == blocks[1..][i - 1];
  }

  /** A block that raises after skipped ones: found in the tail exactly when
      found in the whole list. */
  predicate RaisesAt(blocks: seq<Json>, i: int)
  {
    0 <= i < |blocks| && BlockRaises(blocks[i]) && forall j :: 0 <= j < i ==> BlockSkipped(blocks[j])
  }

  lemma RaisesShift(blocks: seq<Json>)
    requires blocks != [] && BlockSkipped(blocks[0])
    ensures (exists i :: RaisesAt(blocks[1..], i)) <==> (exists i :: RaisesAt(blocks, i))
  {
    var tail := blocks[1..];
    if exists i :: RaisesAt(tail, i) {
      var i :| RaisesAt(tail, i);
      assert forall j :: 0 < j <= i ==> blocks[j] == tail[j - 1];
      assert RaisesAt(blocks, i + 1);
    }
    if exists i :: RaisesAt(blocks, i) {
      var i :| RaisesAt(blocks, i);
      assert i > 0;
      assert forall j :: 0 <= j < i - 1 ==> tail[j] == blocks[j + 1];
      assert RaisesAt(tail, i - 1);
    }
  }

  /** A label given after skipped blocks. */
  predicate TextAt(blocks: seq<Json>, i: int, l: Option<string>)
  {
    0 <= i < |blocks| && BlockText(blocks[i]) == l && forall j :: 0 <= j < i ==> BlockSkipped(blocks[j])
  }

  lemma TextShift(blocks: seq<Json>, l: Option<string>)
    requires blocks != [] && BlockSkipped(blocks[0])
    ensures (exists i :: TextAt(blocks[1..], i, l)) ==> (exists i :: TextAt(blocks, i, l))
  {
    var tail := blocks[1..];
    if exists i :: TextAt(tail, i, l) {
      var i :| TextAt(tail, i, l);
      assert forall j :: 0 < j <= i ==> blocks[j] == tail[j - 1];
      assert TextAt(blocks, i + 1, l);
    }
  }

  /** `extract_super`: the primary super type, else the first fallback
      block's label among `super` and `superType`, else none. */
  function ExtractSuper(card: Json): (r: Result<Option<string>>)
    requires card.JObj?
    ensures var cardType := GetOr(card, "cardType", Empty);
      && (!cardType.JObj? ==> r.Err?)
      && (cardType.JObj? && PrimarySuper(cardType).Some? ==> r == Ok(PrimarySuper(cardType)))
      && (cardType.JObj? && PrimarySuper(cardType).None? ==> r == FallbackSuper(card, ["super", "superType"]))
  {
    var cardType := GetOr(card, "cardType", Empty);
    if !cardType.JObj? then Err("AttributeError: 'get' on a non-dict cardType")
    else match PrimarySuper(cardType)
      case Some(l) => Ok(Some(l))
      case None => FallbackSuper(card, ["super", "superType"])
  }

  /** `card.get("text", {})` and its `.get("richText", {})` are both
      dictionaries, so that reading the body raises nothing. */
  predicate RichTextReadable(card: Json)
    requires card.JObj?
  {
    var text := GetOr(card, "text", Empty);
    text.JObj? && GetOr(text, "richText", Empty).JObj?
  }

  /** `extract_description`: the rich-text body, converted to text and then
      translated; "" when the body is not a non-empty string. `htmlText`
      stands for the HTML-to-text conversion, which is not modelled. */
  function ExtractDescription(card: Json, htmlText: string -> string): (r: Result<string>)
    requires card.JObj?
    ensures r.Err? <==> !RichTextReadable(card)
    ensures var body := Path(card, ["text", "richText", "body"]);
      r.Ok? && body.Some? && body.value.JStr? && body.value.s != "" ==>
        r.value == TranslateDescriptionTokens(htmlText(body.value.s))
    ensures var body := Path(card, ["text", "richText", "body"]);
      r.Ok? && !(body.Some? && body.value.JStr? && body.value.s != "") ==> r.value == ""
  {
    var text := GetOr(card, "text", Empty);
    var rich :- DictGet(text, "richText", Empty);
    var body :- DictGet(rich, "body", JNull);
    PathStep(card, "text", ["richText", "body"]);
    PathStep(text, "richText", ["body"]);
    PathStep(rich, "body", []);
    if body.JStr? && body.s != "" then Ok(TranslateDescriptionTokens(htmlText(body.s)))
    else Ok("")
  }

  /** The `url` of the card's `cardImage` block, as the image handlers see it:
      a string, or none for a missing or other false value. A `cardImage`
      that is not a dictionary raises; a true URL that is not a string is
      outside the handlers' `Optional[str]`. */
  function ImageUrl(card: Json): (r: Result<Option<string>>)
    requires card.JObj?
    ensures var url := Path(card, ["cardImage", "url"]);
      r.Err? <==> !GetOr(card, "cardImage", Empty).JObj? || (url.Some? && Truthy(url.value) && !url.value.JStr?)
    ensures var url := Path(card, ["cardImage", "url"]);
      r.Ok? && url.Some? && url.value.JStr? ==> r.value == Some(url.value.s)
    ensures r.Ok? && r.value.Some? ==> Path(card, ["cardImage", "url"]) == Some(JStr(r.value.value))
    ensures r.Ok? && r.value.None? ==> Path(card, ["cardImage", "url"]).None? || !Truthy(Path(card, ["cardImage", "url"]).value)
  {
    var image := GetOr(card, "cardImage", Empty);
    var url :- DictGet(image, "url", JNull);
    PathStep(card, "cardImage", ["url"]);
    PathStep(image, "url", []);
    if url.JStr? then Ok(Some(url.s))
    else if !Truthy(url) then Ok(None)
    else Err("the image url is not a string")
  }

  /** The set id a record carries as a string, "" otherwise. */
  function SetIdString(card: Json): (r: string)
    requires card.JObj? && SetIdOf(card).Ok?
    ensures r != "" ==> SetIdOf(card) == Ok(JStr(r))
    ensures SetIdOf(card).value.JStr? ==> r == SetIdOf(card).value.s
    ensures !SetIdOf(card).value.JStr? ==> r == ""
  {
    match SetIdOf(card).value
    case JStr(s) => s
    case _ => ""
  }

  /** Every field extractor of `map_card_variant` succeeds: the name is a
      string and the description, type, super type and colours read. */
  predicate FieldsReadable(card: Json, htmlText: string -> string)
    requires card.JObj?
  {
    && GetOr(card, "name", JStr("")).JStr?
    && ExtractDescription(card, htmlText).Ok? && ExtractType(card).Ok?
    && ExtractSuper(card).Ok? && ExtractColors(card).Ok?
  }

  /** The fields of `e` are those its extractors read from `card`. */
  predicate FieldsFrom(e: VariantEntry, card: Json, htmlText: string -> string)
    requires card.JObj? && FieldsReadable(card, htmlText)
  {
    && e.name == GetOr(card, "name", JStr("")).s
    && e.description == ExtractDescription(card, htmlText).value
    && e.cardType == ExtractType(card).value
    && e.superType == ExtractSuper(card).value
    && e.colors == ExtractColors(card).value
    && e.energy == GetStat(card, "energy") && e.power == GetStat(card, "power")
    && e.might == GetStat(card, "might") && e.tags == TagsOf(card)
  }

  /** The fields of an entry that come from the record's own blocks, around
      the code, image, date and set id already computed. */
  function EntryFields(card: Json, htmlText: string -> string, variantNumber: string, image: string,
                       releaseDate: string, setId: string): (r: Result<VariantEntry>)
    requires card.JObj?
    ensures r.Ok? <==> FieldsReadable(card, htmlText)
    ensures r.Ok? ==>
      && r.value.variantNumber == variantNumber && r.value.variantImage == image
      && r.value.releaseDate == releaseDate && r.value.setId == setId
      && FieldsFrom(r.value, card, htmlText)
  {
    var name := GetOr(card, "name", JStr(""));
    if !name.JStr? then Err("the card name is not a string")
    else
      var description :- ExtractDescription(card, htmlText);
      var cardType :- ExtractType(card);
      var superType :- ExtractSuper(card);
      var colors :- ExtractColors(card);
      Ok(VariantEntry(name.s, description, variantNumber, image, cardType, superType,
        GetStat(card, "energy"), GetStat(card, "power"), GetStat(card, "might"),
        colors, TagsOf(card), releaseDate, setId))
  }

  /** `map_card_variant`: one intermediate entry per raw record. `handler`
      is the image handler, called with the url, the set folder and the code;
      its effects are modelled in the Publisher module. The mapping succeeds
      exactly when the set id, the image url and every field read; the code,
      date and set id are those of `build_variant_number`,
      `get_release_date_for_card` and the set block, the image is what the
      handler returns for the record's url and folder, and every other field
      is its extractor's. */
  function MapCardVariant(card: Json, handler: (Option<string>, string, string) -> string,
                          htmlText: string -> string): (r: Result<VariantEntry>)
    requires card.JObj?
    ensures r.Ok? <==> SetIdOf(card).Ok? && ImageUrl(card).Ok? && FieldsReadable(card, htmlText)
    ensures r.Ok? ==>
      && r.value.variantNumber == BuildVariantNumber(card).value
      && r.value.releaseDate == GetReleaseDateForCard(card).value
      && r.value.setId == SetIdString(card)
    ensures r.Ok? ==> NormalizeVariantNumber(r.value.variantNumber) == r.value.variantNumber
    ensures r.Ok? ==> (KnownDate(r.value.releaseDate) <==> r.value.setId in ReleaseDatesBySet)
    ensures r.Ok? ==>
      r.value.variantImage ==
        handler(ImageUrl(card).value, ResolveSetFolder(r.value.setId, r.value.variantNumber), r.value.variantNumber)
    ensures r.Ok? ==> FieldsFrom(r.value, card, htmlText)
  {
    var variantNumber :- BuildVariantNumber(card);
    var releaseDate :- GetReleaseDateForCard(card);
    var setId := SetIdString(card);
    assert KnownDate(releaseDate) <==> setId in ReleaseDatesBySet;
    var url :- ImageUrl(card);
    var image := handler(url, ResolveSetFolder(setId, variantNumber), variantNumber);
    EntryFields(card, htmlText, variantNumber, image, releaseDate, setId)
  }

  /** The dictionaries among `items`, in order. */
  function Dicts(items: seq<Json>): (r: seq<Json>)
    ensures forall i :: 0 <= i < |r| ==> r[i].JObj?
    ensures forall x :: x in r <==> x in items && x.JObj?
  {
    if items == [] then []
    else
      assert forall x :: x in items <==> x == items[0] || x in items[1..];
      (if items[0].JObj? then [items[0]] else []) + Dicts(items[1..])
  }

  /** The dictionaries of a list map when its head does and its tail's do. */
  lemma MapAllShift<T>(items: seq<Json>, f: Json -> Result<T>)
    requires items != []
    ensures (forall i :: 0 <= i < |items| && items[i].JObj? ==> f(items[i]).Ok?)
        <==> (items[0].JObj? ==> f(items[0]).Ok?)
             && forall i :: 0 <= i < |items[1..]| && items[1..][i].JObj? ==> f(items[1..][i]).Ok?
  {
    assert forall i :: 0 < i < |items| ==> items[i] == items[1..][i - 1];
  }

  /** A dictionary at the head adds its own entry in front. */
  lemma MapAllCons<T>(items: seq<Json>, f: Json -> Result<T>, entry: T, rest: seq<T>)
    requires items != [] && items[0].JObj? && f(items[0]) == Ok(entry)
    requires |rest| == |Dicts(items[1..])|
    requires forall i :: 0 <= i < |rest| ==> f(Dicts(items[1..])[i]) == Ok(rest[i])
    ensures |[entry] + rest| == |Dicts(items)|
    ensures forall i :: 0 <= i < |rest| + 1 ==> f(Dicts(items)[i]) == Ok(([entry] + rest)[i])
  {
    assert Dicts(items) == [items[0]] + Dicts(items[1..]);
    forall i | 0 < i < |rest| + 1 ensures f(Dicts(items)[i]) == Ok(([entry] + rest)[i]) {
      assert Dicts(items)[i] == Dicts(items[1..])[i - 1];
    }
  }

  /** `map_card_variant` as the comprehension applies it to one item. */
  function MapItem(handler: (Option<string>, string, string) -> string, htmlText: string -> string): (f: Json -> Result<VariantEntry>)
    ensures forall x: Json :: x.JObj? ==> f(x) == MapCardVariant(x, handler, htmlText)
  {
    (x: Json) => if x.JObj? then MapCardVariant(x, handler, htmlText) else Err("not a dictionary")
  }

  /** The list comprehension of `fetch_cards`: every dictionary among the
      items is mapped by `f`, in order; the other items are skipped. It
      succeeds exactly when every dictionary maps. */
  function MapAll<T>(items: seq<Json>, f: Json -> Result<T>): (r: Result<seq<T>>)
    ensures r.Ok? <==> forall i :: 0 <= i < |items| && items[i].JObj? ==> f(items[i]).Ok?
    ensures r.Ok? ==> |r.value| == |Dicts(items)|
    ensures r.Ok? ==> forall i :: 0 <= i < |r.value| ==> f(Dicts(items)[i]) == Ok(r.value[i])
  {
    if items == [] then Ok([])
    else
      var rest := MapAll(items[1..], f);
      MapAllShift(items, f);
      if rest.Err? then rest
      else if items[0].JObj? then
        var entry :- f(items[0]);
        MapAllCons(items, f, entry, rest.value);
        Ok([entry] + rest.value)
      else
        assert Dicts(items) == Dicts(items[1..]);
        Ok(rest.value)
  }
}
