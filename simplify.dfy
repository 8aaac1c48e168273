/** `simplify_card` (scripts/cards.py): one raw card becomes a compact
    record whose `variants` start with the card's normal code, whose rune
    cards gain a `b` variant, and whose `variantImages` follow `variants`
    index by index. */
module Simplify {
  import opened Wrappers
  import opened Json
  import opened Lists
  import opened VariantCodes
  import opened ScriptCodes

  /** The base codes of the six rune cards. */
  const RuneBaseIds: set<string> := {"OGN-042", "OGN-089", "OGN-214", "OGN-126", "OGN-166", "OGN-007"}

  const CdnPrefix: string := "https://cdn.piltoverarchive.com/cards/"

  /** The image a rune's added `b` variant gets. */
  function RuneImage(code: string): string
  {
    CdnPrefix + code + ".webp"
  }

  datatype SimplifiedCard = SimplifiedCard(
    name: Json,
    description: Json,
    variantNumber: Option<string>,
    variants: seq<string>,
    variantImages: seq<Json>,
    cardType: Json,
    superType: Json,
    energy: Json,
    power: Json,
    might: Json,
    colors: seq<string>,
    tags: seq<Json>,
    releaseDate: Option<string>)

  /** `variant_to_image`: each normalised code to the image of the last
      variant with that code. */
  function ImageMap(vs: seq<RawVariant>): map<string, Json>
  {
    if vs == [] then map[]
    else
      var m := ImageMap(vs[..|vs| - 1]);
      var v := vs[|vs| - 1];
      if v.variantNumber != "" then m[NormalizeVariantNumber(v.variantNumber) := v.imageUrl] else m
  }

  /** The map has an entry for exactly the normalised non-empty codes. */
  lemma {:induction false} ImageMapDomain(vs: seq<RawVariant>, c: string)
    ensures c in ImageMap(vs) <==>
      exists i :: 0 <= i < |vs| && vs[i].variantNumber != "" && NormalizeVariantNumber(vs[i].variantNumber) == c
  {
    if vs != [] {
      var init := vs[..|vs| - 1];
      ImageMapDomain(init, c);
      if c in ImageMap(init) {
        var i :| 0 <= i < |init| && init[i].variantNumber != "" && NormalizeVariantNumber(init[i].variantNumber) == c;
        assert vs[i] == init[i];
      }
      forall i | 0 <= i < |init| ensures vs[i] == init[i] {}
    }
  }

  /** When several variants normalise to the same code, the last one's
      image is kept. */
  lemma {:induction false} ImageMapLastWins(vs: seq<RawVariant>, i: nat)
    requires i < |vs| && vs[i].variantNumber != ""
    requires forall j :: i < j < |vs| && vs[j].variantNumber != "" ==>
      NormalizeVariantNumber(vs[j].variantNumber) != NormalizeVariantNumber(vs[i].variantNumber)
    ensures NormalizeVariantNumber(vs[i].variantNumber) in ImageMap(vs)
    ensures ImageMap(vs)[NormalizeVariantNumber(vs[i].variantNumber)] == vs[i].imageUrl
  {
    if i < |vs| - 1 {
      var init := vs[..|vs| - 1];
      assert init[i] == vs[i];
      ImageMapLastWins(init, i);
    }
  }

  /** The loop that fills `variant_to_image`. */
  method BuildImageMap(vs: seq<RawVariant>) returns (m: map<string, Json>)
    ensures m == ImageMap(vs)
  {
    m := map[];
    for i := 0 to |vs|
      invariant m == ImageMap(vs[..i])
    {
      assert vs[..i + 1][..i] == vs[..i];
      if vs[i].variantNumber != "" {
        m := m[NormalizeVariantNumber(vs[i].variantNumber) := vs[i].imageUrl];
      }
    }
    assert vs[..|vs|] == vs;
  }

  /** `remove(x)` then `insert(0, x)`: `x` leaves its first position for
      the front; the others keep their relative order. */
  function MoveToFront(s: seq<string>, x: string): (r: seq<string>)
    requires x in s
    ensures |r| == |s| && r[0] == x && multiset(r) == multiset(s)
    ensures r[1..] == s[..FirstIndex(s, x)] + s[FirstIndex(s, x) + 1..]
  {
    var k := FirstIndex(s, x);
    assert s == s[..k] + [s[k]] + s[k + 1..];
    [x] + (s[..k] + s[k + 1..])
  }

  /** The rune rule: `<code>b` is added unless present, right after the
      first `<code>a` when there is one and at the end otherwise. */
  function AddRuneVariant(s: seq<string>, code: string): (r: seq<string>)
    ensures code + "b" in r
    ensures code + "b" in s ==> r == s
    ensures code + "b" !in s ==> multiset(r) == multiset(s) + multiset{code + "b"}
    ensures code + "b" !in s && code + "a" in s ==>
      var k := FirstIndex(s, code + "a");
      r[..k + 1] == s[..k + 1] && r[k + 1] == code + "b" && r[k + 2..] == s[k + 1..]
    ensures code + "b" !in s && code + "a" !in s ==> r == s + [code + "b"]
  {
    var b := code + "b";
    var a := code + "a";
    if b in s then s
    else if a in s then
      var k := FirstIndex(s, a);
      assert s == s[..k + 1] + s[k + 1..];
      var r := s[..k + 1] + [b] + s[k + 1..];
      assert r[k + 2..] == s[k + 1..];
      r
    else s + [b]
  }

  /** The first raw variant whose code is `code`. */
  function FirstWith(vs: seq<RawVariant>, code: string): (r: Option<RawVariant>)
    ensures r.None? <==> forall i :: 0 <= i < |vs| ==> vs[i].variantNumber != code
    ensures r.Some? ==> exists i :: 0 <= i < |vs| && vs[i] == r.value && vs[i].variantNumber == code
                          && forall j :: 0 <= j < i ==> vs[j].variantNumber != code
  {
    if vs == [] then None
    else if vs[0].variantNumber == code then Some(vs[0])
    else
      var r := FirstWith(vs[1..], code);
      assert forall i :: 0 < i < |vs| ==> vs[i] == vs[1..][i - 1];
      if r.Some? then
        var i :| 0 <= i < |vs[1..]| && vs[1..][i] == r.value && vs[1..][i].variantNumber == code
                  && forall j :: 0 <= j < i ==> vs[1..][j].variantNumber != code;
        assert vs[i + 1] == r.value;
        r
      else r
  }

  /** The first set code among the sorted codes, else `code` itself. */
  function FallbackNormal(sorted: seq<string>, code: string): string
  {
    if sorted == [] then code
    else if IsSetCode(sorted[0]) then sorted[0]
    else FallbackNormal(sorted[1..], code)
  }

  /** `normal_variant`: the normalised normal code, replaced by the first
      sorted set code if it were missing from the sorted codes. */
  function NormalCode(vs: seq<RawVariant>): Option<string>
  {
    NormalOf(NormalVariant(vs), SortVariants(vs))
  }

  /** The normal code chosen from the code as found and the sorted codes. */
  function NormalOf(original: Option<string>, sorted: seq<string>): Option<string>
  {
    if original.Some? && original.value != "" then
      var code := NormalizeVariantNumber(original.value);
      if code != "" && code !in sorted then Some(FallbackNormal(sorted, code)) else Some(code)
    else None
  }

  /** The sorted codes with the normal code moved to the front. */
  function Arranged(vs: seq<RawVariant>): seq<string>
  {
    FrontOf(SortVariants(vs), NormalCode(vs))
  }

  function FrontOf(sorted: seq<string>, normal: Option<string>): seq<string>
  {
    if normal.Some? && normal.value != "" && normal.value in sorted then MoveToFront(sorted, normal.value) else sorted
  }

  predicate IsRuneCard(card: Json, normal: Option<string>)
    requires card.JObj?
  {
    GetOr(card, "type", JNull) == JStr("Rune") && normal.Some? && normal.value != "" && normal.value in RuneBaseIds
  }

  /** The codes after the rune rule. */
  function WithRune(card: Json, normal: Option<string>, arranged: seq<string>): seq<string>
    requires card.JObj?
  {
    if IsRuneCard(card, normal) then AddRuneVariant(arranged, normal.value) else arranged
  }

  /** The image map after the rune rule: an added `b` code gets the CDN
      image. */
  function WithRuneImage(card: Json, normal: Option<string>, arranged: seq<string>, m: map<string, Json>): map<string, Json>
    requires card.JObj?
  {
    if IsRuneCard(card, normal) && normal.value + "b" !in arranged then
      m[normal.value + "b" := JStr(RuneImage(normal.value + "b"))]
    else m
  }

  function FinalVariants(card: Json, vs: seq<RawVariant>): seq<string>
    requires card.JObj?
  {
    WithRune(card, NormalCode(vs), Arranged(vs))
  }

  function FinalImageMap(card: Json, vs: seq<RawVariant>): map<string, Json>
    requires card.JObj?
  {
    WithRuneImage(card, NormalCode(vs), Arranged(vs), ImageMap(vs))
  }

  /** The image of each code, "" when the map has none. */
  function ImagesFor(codes: seq<string>, m: map<string, Json>): (r: seq<Json>)
    ensures |r| == |codes|
    ensures forall i :: 0 <= i < |codes| ==> r[i] == if codes[i] in m then m[codes[i]] else JStr("")
  {
    seq(|codes|, i requires 0 <= i < |codes| => if codes[i] in m then m[codes[i]] else JStr(""))
  }

  /** The set's release date of the first variant whose code is the normal
      code as found, before normalisation. */
  function ReleaseDateOf(vs: seq<RawVariant>): Option<string>
  {
    var original := NormalVariant(vs);
    if original.Some? && original.value != "" then
      match FirstWith(vs, original.value)
      case Some(v) => Some(v.releaseDate)
      case None => None
    else None
  }

  /** `normalize_list`: a list as it is, nothing for `None`, anything else
      as a one-element list. */
  function NormalizeList(value: Json): (r: seq<Json>)
    ensures value.JArr? ==> r == value.items
    ensures value.JNull? ==> r == []
    ensures !value.JArr? && !value.JNull? ==> r == [value]
  {
    match value
    case JArr(items) => items
    case JNull => []
    case _ => [value]
  }

  /** Normalising a normalised list changes nothing. */
  lemma NormalizeListIdempotent(value: Json)
    ensures NormalizeList(JArr(NormalizeList(value))) == NormalizeList(value)
  {
  }

  /** `extract_colors` of the script: the string `name` of each entry's
      `color`. A non-empty `cardColors` that is not a list, an entry that is
      not a dictionary or a non-empty `color` that is not one raises. */
  function ColorsOf(card: Json): (r: Result<seq<string>>)
    requires card.JObj?
    ensures var raw := Or(GetOr(card, "cardColors", JArr([])), JArr([]));
      r.Ok? <==> raw.JArr? && forall i :: 0 <= i < |raw.items| ==> ColorName(raw.items[i]).Ok?
  {
    var raw := Or(GetOr(card, "cardColors", JArr([])), JArr([]));
    if !raw.JArr? then Err("a cardColors value that is not a list")
    else ColorNames(raw.items)
  }

  /** One colour entry: its `color.name` when that is a string, none when
      it is missing or not a string; a non-dictionary entry or a true
      non-dictionary `color` raises. */
  function ColorName(entry: Json): (r: Result<Option<string>>)
    ensures r.Err? <==> !entry.JObj? || (Truthy(GetOr(entry, "color", JNull)) && !GetOr(entry, "color", JNull).JObj?)
    ensures r.Ok? && r.value.Some? ==> Path(entry, ["color", "name"]) == Some(JStr(r.value.value))
    ensures forall n :: Path(entry, ["color", "name"]) == Some(JStr(n)) ==> r == Ok(Some(n))
  {
    ColorNamePath(entry);
    if !entry.JObj? then Err("AttributeError: a color entry that is not a dictionary")
    else
      var color := Or(GetOr(entry, "color", JNull), Empty);
      if !color.JObj? then Err("AttributeError: a color that is not a dictionary")
      else match GetOr(color, "name", JNull)
        case JStr(name) => Ok(Some(name))
        case _ => Ok(None)
  }

  lemma ColorNamePath(entry: Json)
    ensures Path(entry, ["color", "name"]) ==
      if entry.JObj? && Lookup(entry, "color").Some? then Lookup(Lookup(entry, "color").value, "name") else None
  {
    PathStep(entry, "color", ["name"]);
    if entry.JObj? && Lookup(entry, "color").Some? {
      PathStep(Lookup(entry, "color").value, "name", []);
    }
  }

  function ColorNames(entries: seq<Json>): Result<seq<string>>
  {
    Collect(entries, ColorName)
  }

  /** The names `name` yields, in order; the first failure fails all. */
  function Collect<T>(entries: seq<T>, name: T -> Result<Option<string>>): (r: Result<seq<string>>)
    ensures r.Ok? <==> forall i :: 0 <= i < |entries| ==> name(entries[i]).Ok?
  {
    if entries == [] then Ok([])
    else
      var init := entries[..|entries| - 1];
      assert forall i :: 0 <= i < |init| ==> init[i] == entries[i];
      var prefix :- Collect(init, name);
      var last :- name(entries[|entries| - 1]);
      Ok(prefix + (if last.Some? then [last.value] else []))
  }

  /** Every entry of a collected list yields a name or nothing, and each
      name it yields is collected. */
  lemma {:induction false} CollectCover<T>(entries: seq<T>, name: T -> Result<Option<string>>)
    requires Collect(entries, name).Ok?
    ensures forall i :: 0 <= i < |entries| ==> name(entries[i]).Ok?
    ensures forall i :: 0 <= i < |entries| && name(entries[i]).Ok? && name(entries[i]).value.Some? ==>
      name(entries[i]).value.value in Collect(entries, name).value
  {
    if entries != [] {
      var init := entries[..|entries| - 1];
      CollectCover(init, name);
      forall i | 0 <= i < |init| ensures entries[i] == init[i] {}
    }
  }

  /** Every collected name comes from some entry. */
  lemma {:induction false} CollectSource<T>(entries: seq<T>, name: T -> Result<Option<string>>, x: string) returns (i: nat)
    requires Collect(entries, name).Ok? && x in Collect(entries, name).value
    ensures i < |entries| && name(entries[i]) == Ok(Some(x))
  {
    var init := entries[..|entries| - 1];
    if x in Collect(init, name).value {
      i := CollectSource(init, name, x);
      assert entries[i] == init[i];
    } else {
      i := |entries| - 1;
    }
  }

  /** Once an entry fails, the whole list fails with its error. */
  lemma {:induction false} CollectFails<T>(entries: seq<T>, name: T -> Result<Option<string>>, n: nat)
    requires 0 < n <= |entries| && Collect(entries[..n - 1], name).Ok? && name(entries[n - 1]).Err?
    ensures Collect(entries, name) == Err(name(entries[n - 1]).why)
    decreases |entries|
  {
    assert entries[..n][..n - 1] == entries[..n - 1];
    if n < |entries| {
      var init := entries[..|entries| - 1];
      assert init[..n - 1] == entries[..n - 1] && init[n - 1] == entries[n - 1];
      CollectFails(init, name, n);
    } else {
      assert entries[..n] == entries;
    }
  }

  /** The colours of a card are exactly the string names of its entries'
      colours; a card whose colours can be read has only readable entries. */
  lemma ColorsMembers(card: Json, x: string) returns (i: nat)
    requires card.JObj? && ColorsOf(card).Ok? && x in ColorsOf(card).value
    ensures var raw := Or(GetOr(card, "cardColors", JArr([])), JArr([]));
      raw.JArr? && i < |raw.items| && ColorName(raw.items[i]) == Ok(Some(x))
  {
    var raw := Or(GetOr(card, "cardColors", JArr([])), JArr([]));
    i := CollectSource(raw.items, ColorName, x);
  }

  /** `extract_colors`. */
  method ExtractColors(card: Json) returns (r: Result<seq<string>>)
    requires card.JObj?
    ensures r == ColorsOf(card)
  {
    var raw := Or(GetOr(card, "cardColors", JArr([])), JArr([]));
    if !raw.JArr? {
      return Err("a cardColors value that is not a list");
    }
    r := CollectNames(raw.items, ColorName);
  }

  /** The loop of `extract_colors`: the names in order, stopping at the
      first entry that raises. */
  method CollectNames<T>(entries: seq<T>, name: T -> Result<Option<string>>) returns (r: Result<seq<string>>)
    ensures r == Collect(entries, name)
  {
    var names: seq<string> := [];
    for i := 0 to |entries|
      invariant Collect(entries[..i], name) == Ok(names)
    {
      assert entries[..i + 1][..i] == entries[..i] && entries[..i + 1][i] == entries[i];
      var found := name(entries[i]);
      if found.Err? {
        CollectFails(entries, name, i + 1);
        return Err(found.why);
      }
      var more := if found.value.Some? then [found.value.value] else [];
      assert Collect(entries[..i + 1], name) == Ok(names + more);
      names := names + more;
    }
    assert entries[..|entries|] == entries;
    r := Ok(names);
  }

  /** What `simplify_card` returns for one card. */
  function Simplified(card: Json, vs: seq<RawVariant>, colors: seq<string>): SimplifiedCard
    requires card.JObj?
  {
    var variants := FinalVariants(card, vs);
    SimplifiedCard(
      GetOr(card, "name", JNull), GetOr(card, "description", JNull),
      NormalCode(vs), variants, ImagesFor(variants, FinalImageMap(card, vs)),
      GetOr(card, "type", JNull), GetOr(card, "super", JNull),
      GetOr(card, "energy", JNull), GetOr(card, "power", JNull), GetOr(card, "might", JNull),
      colors, NormalizeList(GetOr(card, "tags", JNull)), ReleaseDateOf(vs))
  }

  /** `simplify_card`; a card that is not a dictionary, or a part of it the
      code cannot read, raises. */
  function Simplify(card: Json): (r: Result<SimplifiedCard>)
    ensures r.Ok? <==> card.JObj? && ReadVariants(card).Ok? && ColorsOf(card).Ok?
  {
    if !card.JObj? then Err("AttributeError: a card that is not a dictionary")
    else
      var vs :- ReadVariants(card);
      var colors :- ColorsOf(card);
      Ok(Simplified(card, vs, colors))
  }

  /** The normal-code selection and the move to the front. */
  method ArrangeVariants(vs: seq<RawVariant>) returns (normal: Option<string>, arranged: seq<string>)
    ensures normal == NormalCode(vs) && arranged == Arranged(vs)
  {
    var sorted := SortVariants(vs);
    var original := GetNormalVariantNumber(vs);
    normal := ChooseNormal(original, sorted);
    arranged := PutNormalFirst(sorted, normal);
  }

  /** The normalised code, or the first set code among the sorted codes
      when it is missing from them. */
  method ChooseNormal(original: Option<string>, sorted: seq<string>) returns (normal: Option<string>)
    ensures normal == NormalOf(original, sorted)
  {
    normal := if original.Some? && original.value != "" then Some(NormalizeVariantNumber(original.value)) else None;
    if normal.Some? && normal.value != "" && normal.value !in sorted {
      var i := 0;
      while i < |sorted|
        invariant 0 <= i <= |sorted|
        invariant FallbackNormal(sorted, normal.value) == FallbackNormal(sorted[i..], normal.value)
      {
        assert sorted[i..][1..] == sorted[i + 1..];
        if IsSetCode(sorted[i]) {
          normal := Some(sorted[i]);
          break;
        }
        i := i + 1;
      }
    }
  }

  /** The normal code's first occurrence is removed and the code put in
      front. */
  method PutNormalFirst(sorted: seq<string>, normal: Option<string>) returns (arranged: seq<string>)
    ensures arranged == FrontOf(sorted, normal)
  {
    arranged := sorted;
    if normal.Some? && normal.value != "" && normal.value in arranged {
      var k := FirstIndex(arranged, normal.value);
      arranged := arranged[..k] + arranged[k + 1..];
      arranged := [normal.value] + arranged;
    }
  }

  /** The image list, built code by code. */
  method CollectImages(codes: seq<string>, m: map<string, Json>) returns (images: seq<Json>)
    ensures images == ImagesFor(codes, m)
  {
    images := [];
    for i := 0 to |codes|
      invariant images == ImagesFor(codes[..i], m)
    {
      var image := if codes[i] in m then m[codes[i]] else JStr("");
      images := images + [image];
    }
    assert codes[..|codes|] == codes;
  }

  /** The search for the first variant with the normal code. */
  method FindReleaseDate(vs: seq<RawVariant>) returns (date: Option<string>)
    ensures date == ReleaseDateOf(vs)
  {
    var original := GetNormalVariantNumber(vs);
    date := None;
    if original.Some? && original.value != "" {
      var i := 0;
      while i < |vs|
        invariant 0 <= i <= |vs|
        invariant FirstWith(vs, original.value) == FirstWith(vs[i..], original.value)
      {
        assert vs[i..][1..] == vs[i + 1..];
        if vs[i].variantNumber == original.value {
          date := Some(vs[i].releaseDate);
          return;
        }
        i := i + 1;
      }
    }
  }

  /** The rune rule applied to the arranged codes and the image map. */
  method ApplyRuneRule(card: Json, normal: Option<string>, arranged: seq<string>, imageMap: map<string, Json>)
    returns (variants: seq<string>, images: map<string, Json>)
    requires card.JObj?
    ensures variants == WithRune(card, normal, arranged) && images == WithRuneImage(card, normal, arranged, imageMap)
  {
    variants, images := arranged, imageMap;
    if GetOr(card, "type", JNull) == JStr("Rune") && normal.Some? && normal.value != "" && normal.value in RuneBaseIds {
      var b := normal.value + "b";
      if b !in variants {
        var a := normal.value + "a";
        if a in variants {
          var k := FirstIndex(variants, a);
          variants := variants[..k + 1] + [b] + variants[k + 1..];
        } else {
          variants := variants + [b];
        }
        images := images[b := JStr(RuneImage(b))];
      }
    }
  }

  /** `simplify_card`. */
  method SimplifyCard(card: Json) returns (r: Result<SimplifiedCard>)
    ensures r == Simplify(card)
  {
    if !card.JObj? {
      return Err("AttributeError: a card that is not a dictionary");
    }
    var read := ReadVariants(card);
    if read.Err? {
      return Err(read.why);
    }
    var vs := read.value;
    var imageMap := BuildImageMap(vs);
    var normal, arranged := ArrangeVariants(vs);
    var variants;
    variants, imageMap := ApplyRuneRule(card, normal, arranged, imageMap);
    var images := CollectImages(variants, imageMap);
    var date := FindReleaseDate(vs);
    var colors := ExtractColors(card);
    if colors.Err? {
      return Err(colors.why);
    }
    var simplified := SimplifiedCard(
      GetOr(card, "name", JNull), GetOr(card, "description", JNull),
      normal, variants, images,
      GetOr(card, "type", JNull), GetOr(card, "super", JNull),
      GetOr(card, "energy", JNull), GetOr(card, "power", JNull), GetOr(card, "might", JNull),
      colors.value, NormalizeList(GetOr(card, "tags", JNull)), date);
    assert simplified == Simplified(card, vs, colors.value);
    r := Ok(simplified);
  }

  /** Before the rune rule, `variants` is the sorted code list with the
      normal code moved from its first position to the front, or the sorted
      list itself when there is no normal code; `variantNumber` is that
      normal code. The fallback search never changes the normal code. */
  lemma ArrangedSpec(vs: seq<RawVariant>)
    ensures NormalVariant(vs).None? ==> NormalCode(vs).None? && Arranged(vs) == SortVariants(vs)
    ensures NormalVariant(vs).Some? ==>
      var code := NormalizeVariantNumber(NormalVariant(vs).value);
      var sorted := SortVariants(vs);
      && NormalCode(vs) == Some(code) && code in sorted
      && Arranged(vs)[0] == code
      && Arranged(vs)[1..] == sorted[..FirstIndex(sorted, code)] + sorted[FirstIndex(sorted, code) + 1..]
      && multiset(Arranged(vs)) == multiset(sorted)
  {
    if NormalVariant(vs).Some? {
      NormalListed(vs);
      FrontOfListed(NormalVariant(vs).value, SortVariants(vs));
    }
  }

  /** A found code whose normalised form is listed is the normal code, and
      it is moved to the front of the list. */
  lemma FrontOfListed(original: string, sorted: seq<string>)
    requires original != "" && NormalizeVariantNumber(original) in sorted
    ensures var code := NormalizeVariantNumber(original);
      && NormalOf(Some(original), sorted) == Some(code)
      && FrontOf(sorted, Some(code)) == MoveToFront(sorted, code)
  {
  }

  /** `variantImages` has one entry per code of `variants`: the image of
      the last variant with that code, the CDN image for an added rune `b`
      variant, and "" for a code with no image. */
  lemma ImagesAligned(card: Json)
    requires Simplify(card).Ok?
    ensures var r := Simplify(card).value;
      var vs := ReadVariants(card).value;
      && |r.variantImages| == |r.variants|
      && forall i :: 0 <= i < |r.variants| ==>
           r.variantImages[i] == if r.variants[i] in FinalImageMap(card, vs) then FinalImageMap(card, vs)[r.variants[i]] else JStr("")
  {
    SimplifyValue(card);
    var r := Simplified(card, ReadVariants(card).value, ColorsOf(card).value);
    assert r.variantImages == ImagesFor(r.variants, FinalImageMap(card, ReadVariants(card).value));
  }

  /** A simplified card is built from the card's read variants and colours. */
  lemma SimplifyValue(card: Json)
    requires Simplify(card).Ok?
    ensures card.JObj? && ReadVariants(card).Ok? && ColorsOf(card).Ok?
    ensures Simplify(card).value == Simplified(card, ReadVariants(card).value, ColorsOf(card).value)
  {
  }

  /** The rune rule: a rune card whose normal code is one of the six base
      ids always ends up with its `b` code, and when the rule adds it, that
      code's image is the CDN image. */
  lemma RuneRule(card: Json, normal: Option<string>, arranged: seq<string>, m: map<string, Json>)
    requires card.JObj? && GetOr(card, "type", JNull) == JStr("Rune")
    requires normal.Some? && normal.value in RuneBaseIds
    ensures var variants := WithRune(card, normal, arranged);
      var b := normal.value + "b";
      && variants == AddRuneVariant(arranged, normal.value)
      && b in variants
      && (b !in arranged ==> ImagesFor(variants, WithRuneImage(card, normal, arranged, m))[FirstIndex(variants, b)] == JStr(RuneImage(b)))
  {
    assert IsRuneCard(card, normal);
    var variants := WithRune(card, normal, arranged);
    var b := normal.value + "b";
    assert variants[FirstIndex(variants, b)] == b;
  }

  /** Which cards are not runes: a card of another type, or one whose
      normal code is not a base id, keeps its arranged codes and images. */
  lemma NotRune(card: Json, normal: Option<string>, arranged: seq<string>, m: map<string, Json>)
    requires card.JObj?
    requires GetOr(card, "type", JNull) != JStr("Rune") || normal.None? || normal.value !in RuneBaseIds
    ensures WithRune(card, normal, arranged) == arranged
    ensures WithRuneImage(card, normal, arranged, m) == m
  {
  }

  /** On a simplified card, `variants` and `variantImages` are the arranged
      codes and their images after the rune rule. */
  lemma SimplifiedParts(card: Json)
    requires Simplify(card).Ok?
    ensures var r := Simplify(card).value;
      var vs := ReadVariants(card).value;
      && r.variantNumber == NormalCode(vs)
      && r.variants == WithRune(card, NormalCode(vs), Arranged(vs))
      && r.variantImages == ImagesFor(r.variants, WithRuneImage(card, NormalCode(vs), Arranged(vs), ImageMap(vs)))
      && r.releaseDate == ReleaseDateOf(vs)
      && r.colors == ColorsOf(card).value
  {
    SimplifyValue(card);
  }

  /** The card's release date is that of the first raw variant carrying
      the normal code; there is none exactly when there is no normal code. */
  lemma ReleaseDateSpec(vs: seq<RawVariant>)
    ensures ReleaseDateOf(vs).None? <==> NormalVariant(vs).None?
    ensures NormalVariant(vs).Some? ==>
      exists i :: 0 <= i < |vs| && vs[i].variantNumber == NormalVariant(vs).value
        && ReleaseDateOf(vs) == Some(vs[i].releaseDate)
        && forall j :: 0 <= j < i ==> vs[j].variantNumber != NormalVariant(vs).value
  {
    if NormalVariant(vs).Some? {
      var code := NormalVariant(vs).value;
      var i := NormalVariantLeast(vs);
      var k := FirstIndex(vs, Matching(vs)[i]);
      var w := FirstCarrier(vs, code, k);
      assert code != "";
      assert ReleaseDateOf(vs) == Some(vs[w].releaseDate);
    }
  }

  /** A code carried by some variant is found, at its first carrier. */
  lemma {:induction false} FirstCarrier(vs: seq<RawVariant>, code: string, k: nat) returns (w: nat)
    requires k < |vs| && vs[k].variantNumber == code
    ensures w <= k && vs[w].variantNumber == code && FirstWith(vs, code) == Some(vs[w])
    ensures forall j :: 0 <= j < w ==> vs[j].variantNumber != code
  {
    if vs[0].variantNumber == code {
      w := 0;
    } else {
      var tail := vs[1..];
      assert tail[k - 1] == vs[k];
      var m := FirstCarrier(tail, code, k - 1);
      w := m + 1;
      assert vs[w] == tail[m];
      forall j | 0 <= j < w ensures vs[j].variantNumber != code {
        if j > 0 { assert vs[j] == tail[j - 1]; }
      }
    }
  }


}
