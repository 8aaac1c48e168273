/** `assemble_cards_by_name` (worker/official.py): the variant entries are
    grouped by card name; each group is sorted by the variant sort key and
    becomes one card whose code lists are de-duplicated and aligned. */
module Grouping {
  import opened Wrappers
  import opened Json
  import opened Sorting
  import opened Lists
  import opened Records
  import opened VariantCodes
  import opened Extract
  import opened Locate

  /** Card names sort as one-element tuples of strings. */
  function NameKey(n: string): (k: Key)
    ensures k == [S(n)]
  {
    [S(n)]
  }

  function NamesOf(entries: seq<VariantEntry>): (r: seq<string>)
    ensures |r| == |entries| && forall i :: 0 <= i < |entries| ==> r[i] == entries[i].name
  {
    seq(|entries|, i requires 0 <= i < |entries| => entries[i].name)
  }

  function Codes(entries: seq<VariantEntry>): (r: seq<string>)
    ensures |r| == |entries| && forall i :: 0 <= i < |entries| ==> r[i] == entries[i].variantNumber
  {
    seq(|entries|, i requires 0 <= i < |entries| => entries[i].variantNumber)
  }

  /** `grouped[name]`: the entries with that name, in input order. */
  function GroupOf(entries: seq<VariantEntry>, name: string): (r: seq<VariantEntry>)
  {
    if entries == [] then []
    else
      var last := entries[|entries| - 1];
      GroupOf(entries[..|entries| - 1], name) + (if last.name == name then [last] else [])
  }

  /** A group holds exactly the entries with its name. */
  lemma {:induction false} GroupMembers(entries: seq<VariantEntry>, name: string)
    ensures forall e :: e in GroupOf(entries, name) <==> e in entries && e.name == name
  {
    if entries != [] {
      var init := entries[..|entries| - 1];
      GroupMembers(init, name);
      assert entries == init + [entries[|entries| - 1]];
    }
  }

  lemma GroupNonEmpty(entries: seq<VariantEntry>, name: string)
    requires name in NamesOf(entries)
    ensures GroupOf(entries, name) != []
  {
    var i :| 0 <= i < |entries| && NamesOf(entries)[i] == name;
    GroupMembers(entries, name);
    assert entries[i] in GroupOf(entries, name);
  }

  /** `sorted(grouped)`: the distinct names in ascending order. */
  function SortedNames(entries: seq<VariantEntry>): seq<string>
  {
    SortBy(Dedup(NamesOf(entries)), NameKey)
  }

  /** The variant codes of a sorted group, first occurrence kept, each with
      the image of that occurrence. */
  function CodesAndImages(s: seq<VariantEntry>): (r: (seq<string>, seq<string>))
    ensures |r.0| == |r.1|
  {
    if s == [] then ([], [])
    else
      var prev := CodesAndImages(s[..|s| - 1]);
      var e := s[|s| - 1];
      if e.variantNumber in prev.0 then prev
      else (prev.0 + [e.variantNumber], prev.1 + [e.variantImage])
  }

  /** One card from its sorted, non-empty group: name, code and release date
      from the first variant, rules text, type and stats from the last. */
  function CardOf(s: seq<VariantEntry>): Card
    requires s != []
  {
    var (variants, images) := CodesAndImages(s);
    var base := s[0];
    var last := s[|s| - 1];
    Card(base.name, last.description, base.variantNumber, variants, images,
         last.cardType, last.superType, last.energy, last.power, last.might,
         last.colors, last.tags, base.releaseDate)
  }

  /** The cards of the given names, in the given order. */
  function CardsFor(entries: seq<VariantEntry>, names: seq<string>): (r: seq<Card>)
    requires forall n :: n in names ==> n in NamesOf(entries)
    ensures |r| == |names|
  {
    if names == [] then []
    else
      var n := names[|names| - 1];
      GroupNonEmpty(entries, n);
      CardsFor(entries, names[..|names| - 1]) + [CardOf(SortBy(GroupOf(entries, n), VariantSortKey))]
  }

  /** What `assemble_cards_by_name` returns. */
  function Assemble(entries: seq<VariantEntry>): seq<Card>
  {
    SortedNamesElements(entries);
    CardsFor(entries, SortedNames(entries))
  }

  /** The `seen_variants` loop over one sorted group. */
  method CollectVariants(s: seq<VariantEntry>) returns (variants: seq<string>, images: seq<string>)
    ensures (variants, images) == CodesAndImages(s)
  {
    var seen: set<string> := {};
    variants, images := [], [];
    for i := 0 to |s|
      invariant (variants, images) == CodesAndImages(s[..i])
      invariant forall c :: c in seen <==> c in variants
    {
      assert s[..i + 1][..i] == s[..i];
      var code := s[i].variantNumber;
      if code !in seen {
        seen := seen + {code};
        variants := variants + [code];
        images := images + [s[i].variantImage];
      }
    }
    assert s[..|s|] == s;
  }

  /** The first loop of `assemble_cards_by_name`: append each entry to its
      name's group; `order` records the names in first-seen order, as the
      dictionary's keys are. */
  method GroupEntries(entries: seq<VariantEntry>) returns (grouped: map<string, seq<VariantEntry>>, order: seq<string>)
    ensures order == Dedup(NamesOf(entries))
    ensures forall n :: n in grouped <==> n in order
    ensures forall n :: n in grouped ==> grouped[n] == GroupOf(entries, n)
  {
    grouped := map[];
    order := [];
    for i := 0 to |entries|
      invariant order == Dedup(NamesOf(entries[..i]))
      invariant forall n :: n in grouped <==> n in order
      invariant forall n :: n in grouped ==> grouped[n] == GroupOf(entries[..i], n)
    {
      var e, seen := entries[i], entries[..i];
      assert entries[..i + 1] == seen + [e];
      GroupStep(seen, e, grouped, order);
      if e.name in grouped {
        grouped := grouped[e.name := grouped[e.name] + [e]];
      } else {
        grouped := grouped[e.name := [e]];
        order := order + [e.name];
      }
    }
    assert entries[..|entries|] == entries;
  }

  /** One step of the grouping loop keeps the groups and the first-seen
      order those of the entries seen so far. */
  lemma GroupStep(seen: seq<VariantEntry>, e: VariantEntry, grouped: map<string, seq<VariantEntry>>, order: seq<string>)
    requires order == Dedup(NamesOf(seen))
    requires forall n :: n in grouped <==> n in order
    requires forall n :: n in grouped ==> grouped[n] == GroupOf(seen, n)
    ensures var next := if e.name in grouped then grouped[e.name := grouped[e.name] + [e]] else grouped[e.name := [e]];
      var nextOrder := if e.name in grouped then order else order + [e.name];
      && nextOrder == Dedup(NamesOf(seen + [e]))
      && (forall n :: n in next <==> n in nextOrder)
      && (forall n :: n in next ==> next[n] == GroupOf(seen + [e], n))
  {
    NamesSnoc(seen, e);
    DedupSnoc(NamesOf(seen), e.name);
    DedupElements(NamesOf(seen));
    if e.name !in grouped {
      GroupOfAbsent(seen, e.name);
    }
    forall n ensures GroupOf(seen + [e], n) == GroupOf(seen, n) + (if e.name == n then [e] else []) {
      GroupSnoc(seen, e, n);
    }
  }

  lemma NamesSnoc(seen: seq<VariantEntry>, e: VariantEntry)
    ensures NamesOf(seen + [e]) == NamesOf(seen) + [e.name]
  {
  }

  lemma GroupSnoc(seen: seq<VariantEntry>, e: VariantEntry, n: string)
    ensures GroupOf(seen + [e], n) == GroupOf(seen, n) + (if e.name == n then [e] else [])
  {
    assert (seen + [e])[..|seen|] == seen;
  }


  /** One card from its name's group: sort the group by the variant key,
      collect the codes and images, take the base and last variants. */
  method BuildCard(group: seq<VariantEntry>) returns (card: Card)
    requires group != []
    ensures card == CardOf(SortBy(group, VariantSortKey))
  {
    var sortedVariants := SortBy(group, VariantSortKey);
    var variants, images := CollectVariants(sortedVariants);
    var base := sortedVariants[0];
    var last := sortedVariants[|sortedVariants| - 1];
    card := Card(base.name, last.description, base.variantNumber, variants, images,
                 last.cardType, last.superType, last.energy, last.power, last.might,
                 last.colors, last.tags, base.releaseDate);
  }

  /** The second loop of `assemble_cards_by_name`: one card per name, in the
      order given. */
  method BuildCards(entries: seq<VariantEntry>, grouped: map<string, seq<VariantEntry>>, names: seq<string>)
      returns (cards: seq<Card>)
    requires forall n :: n in names ==> n in NamesOf(entries) && n in grouped && grouped[n] == GroupOf(entries, n)
    ensures cards == CardsFor(entries, names)
  {
    cards := [];
    for k := 0 to |names|
      invariant cards == CardsFor(entries, names[..k])
    {
      var name := names[k];
      assert name in names;
      CardsForStep(entries, names, k);
      var card := BuildCard(grouped[name]);
      cards := cards + [card];
    }
    assert names[..|names|] == names;
  }

  /** `assemble_cards_by_name`: group the entries, then build one card per
      name in ascending name order. */
  method AssembleCardsByName(entries: seq<VariantEntry>) returns (cards: seq<Card>)
    ensures cards == Assemble(entries)
  {
    var grouped, order := GroupEntries(entries);
    var names := SortBy(order, NameKey);
    assert names == SortedNames(entries);
    SortedNamesElements(entries);
    forall n | n in names ensures n in grouped {
      assert n in multiset(names);
    }
    cards := BuildCards(entries, grouped, names);
  }

  lemma {:induction false} GroupOfAbsent(entries: seq<VariantEntry>, name: string)
    requires name !in NamesOf(entries)
    ensures GroupOf(entries, name) == []
  {
    if entries != [] {
      var init := entries[..|entries| - 1];
      assert NamesOf(entries)[|entries| - 1] == entries[|entries| - 1].name;
      assert forall i :: 0 <= i < |init| ==> NamesOf(init)[i] == NamesOf(entries)[i];
      GroupOfAbsent(init, name);
    }
  }

  /** The distinct names, sorted, are still distinct. */
  lemma SortedNamesNoDup(names: seq<string>)
    requires NoDup(names)
    ensures NoDup(SortBy(names, NameKey))
  {
    var r := SortBy(names, NameKey);
    NoDupMultiplicity(names);
    forall i, j | 0 <= i < j < |r| ensures r[i] != r[j] {
      var x := r[i];
      assert r == r[..j] + r[j..];
      assert x in r[..j];
      assert multiset(r)[x] == multiset(r[..j])[x] + multiset(r[j..])[x];
      assert x !in r[j..];
      assert r[j] in r[j..];
    }
  }

  lemma SortedNamesElements(entries: seq<VariantEntry>)
    ensures forall n :: n in SortedNames(entries) <==> n in NamesOf(entries)
  {
    var d := Dedup(NamesOf(entries));
    DedupElements(NamesOf(entries));
    forall n ensures n in SortedNames(entries) <==> n in d {
      assert n in SortedNames(entries) <==> n in multiset(SortedNames(entries));
      assert n in d <==> n in multiset(d);
    }
  }

  /** `sorted(grouped)` is strictly ascending. */
  lemma SortedNamesStrict(entries: seq<VariantEntry>)
    ensures var names := SortedNames(entries);
      forall i, j :: 0 <= i < j < |names| ==> StrLt(names[i], names[j])
  {
    var names := SortedNames(entries);
    DedupElements(NamesOf(entries));
    SortedNamesNoDup(Dedup(NamesOf(entries)));
    forall i, j | 0 <= i < j < |names| ensures StrLt(names[i], names[j]) {
      assert KeyLe(NameKey(names[i]), NameKey(names[j]));
      KeyLtTotal(NameKey(names[i]), NameKey(names[j]));
    }
  }

  lemma CardsForStep(entries: seq<VariantEntry>, names: seq<string>, k: nat)
    requires forall n :: n in names ==> n in NamesOf(entries)
    requires k < |names|
    ensures GroupOf(entries, names[k]) != []
    ensures CardsFor(entries, names[..k + 1])
      == CardsFor(entries, names[..k]) + [CardOf(SortBy(GroupOf(entries, names[k]), VariantSortKey))]
  {
    GroupNonEmpty(entries, names[k]);
    assert names[..k + 1][..k] == names[..k];
  }

  /** The `i`-th card is built from the `i`-th name's group, sorted. */
  lemma {:induction false} CardsForAt(entries: seq<VariantEntry>, names: seq<string>, i: nat)
    requires forall n :: n in names ==> n in NamesOf(entries)
    requires i < |names|
    ensures GroupOf(entries, names[i]) != []
    ensures CardsFor(entries, names)[i] == CardOf(SortBy(GroupOf(entries, names[i]), VariantSortKey))
  {
    GroupNonEmpty(entries, names[i]);
    if i < |names| - 1 {
      var init := names[..|names| - 1];
      assert init[i] == names[i];
      CardsForAt(entries, init, i);
    }
  }

  /** A card is named after its group. */
  lemma CardOfName(entries: seq<VariantEntry>, name: string)
    requires GroupOf(entries, name) != []
    ensures CardOf(SortBy(GroupOf(entries, name), VariantSortKey)).name == name
  {
    var s := SortBy(GroupOf(entries, name), VariantSortKey);
    GroupMembers(entries, name);
    assert s[0] in multiset(GroupOf(entries, name));
  }

  /** The cards come in strictly ascending name order, one per distinct
      name of the input. */
  lemma AssembleNames(entries: seq<VariantEntry>)
    ensures var cards := Assemble(entries);
      && |cards| == |Dedup(NamesOf(entries))|
      && (forall i :: 0 <= i < |cards| ==> cards[i].name == SortedNames(entries)[i])
      && (forall i, j :: 0 <= i < j < |cards| ==> StrLt(cards[i].name, cards[j].name))
      && (forall n :: n in NamesOf(entries) <==> exists i :: 0 <= i < |cards| && cards[i].name == n)
  {
    var names := SortedNames(entries);
    var cards := Assemble(entries);
    SortedNamesElements(entries);
    SortedNamesStrict(entries);
    forall i | 0 <= i < |cards| ensures cards[i].name == names[i] {
      CardsForAt(entries, names, i);
      CardOfName(entries, names[i]);
    }
    forall n | n in NamesOf(entries) ensures exists i :: 0 <= i < |cards| && cards[i].name == n {
      var i :| 0 <= i < |names| && names[i] == n;
      assert cards[i].name == n;
    }
  }

  /** Each card is the card of its name's group. */
  lemma AssembleCard(entries: seq<VariantEntry>, i: nat)
    requires i < |Assemble(entries)|
    ensures var name := Assemble(entries)[i].name;
      && GroupOf(entries, name) != []
      && Assemble(entries)[i] == CardOf(SortBy(GroupOf(entries, name), VariantSortKey))
  {
    AssembleNames(entries);
    SortedNamesElements(entries);
    CardsForAt(entries, SortedNames(entries), i);
  }

  lemma {:induction false} CodesDedup(s: seq<VariantEntry>)
    ensures CodesAndImages(s).0 == Dedup(Codes(s))
  {
    if s != [] {
      var init := s[..|s| - 1];
      CodesDedup(init);
      assert Codes(s)[..|s| - 1] == Codes(init);
    }
  }

  lemma {:induction false} ImagesAligned(s: seq<VariantEntry>)
    ensures forall i :: 0 <= i < |CodesAndImages(s).0| ==>
      CodesAndImages(s).0[i] in Codes(s) &&
      CodesAndImages(s).1[i] == s[FirstIndex(Codes(s), CodesAndImages(s).0[i])].variantImage
  {
    if s != [] {
      var init := s[..|s| - 1];
      var e := s[|s| - 1];
      var (v, im) := CodesAndImages(s);
      var (v0, im0) := CodesAndImages(init);
      ImagesAligned(init);
      assert Codes(s) == Codes(init) + [e.variantNumber];
      forall i | 0 <= i < |v| ensures v[i] in Codes(s) && im[i] == s[FirstIndex(Codes(s), v[i])].variantImage {
        if i < |v0| {
          FirstIndexExtend(Codes(init), [e.variantNumber], v[i]);
          assert s[FirstIndex(Codes(init), v0[i])] == init[FirstIndex(Codes(init), v0[i])];
        } else {
          CodesDedup(init);
          DedupElements(Codes(init));
          assert Codes(s)[|init|] == e.variantNumber;
          assert FirstIndex(Codes(s), e.variantNumber) == |init|;
        }
      }
    }
  }

  /** A card's code list is its group's codes in sorted order, without
      duplicates, first occurrence kept; the images have the same length and
      each is the image of the first variant with that code. */
  lemma CardCodes(s: seq<VariantEntry>, group: seq<VariantEntry>)
    requires s != [] && multiset(s) == multiset(group)
    ensures var card := CardOf(s);
      && card.variants == Dedup(Codes(s))
      && NoDup(card.variants)
      && (forall c :: c in card.variants <==> exists e :: e in group && e.variantNumber == c)
      && |card.variantImages| == |card.variants|
      && (forall i :: 0 <= i < |card.variants| ==> card.variants[i] in Codes(s))
      && (forall i :: 0 <= i < |card.variants| ==>
            card.variantImages[i] == s[FirstIndex(Codes(s), card.variants[i])].variantImage)
  {
    CodesDedup(s);
    ImagesAligned(s);
    DedupElements(Codes(s));
    CodesMembers(s, group);
  }

  lemma CodesMembers(s: seq<VariantEntry>, group: seq<VariantEntry>)
    requires multiset(s) == multiset(group)
    ensures forall c :: c in Codes(s) <==> exists e :: e in group && e.variantNumber == c
  {
    forall c ensures c in Codes(s) <==> exists e :: e in group && e.variantNumber == c {
      if c in Codes(s) {
        var i :| 0 <= i < |s| && Codes(s)[i] == c;
        assert s[i] in multiset(group);
      }
      if exists e :: e in group && e.variantNumber == c {
        var e :| e in group && e.variantNumber == c;
        assert e in multiset(s);
        var i :| 0 <= i < |s| && s[i] == e;
        assert Codes(s)[i] == c;
      }
    }
  }

  /** A card's name, own code and release date are those of the first
      sorted variant, whose code also heads the code list; the release date
      is the earliest of the group; the rules text, type, super type, stats,
      colours and tags are the last variant's. */
  lemma CardHead(s: seq<VariantEntry>, group: seq<VariantEntry>)
    requires group != [] && s == SortBy(group, VariantSortKey)
    ensures var card := CardOf(s);
      && card.variants != []
      && card.variants[0] == card.variantNumber == s[0].variantNumber
      && card.releaseDate == s[0].releaseDate
      && (forall e :: e in group ==> !StrLt(e.releaseDate, card.releaseDate))
      && card.name == s[0].name
      && card.description == s[|s| - 1].description && card.tags == s[|s| - 1].tags
      && card.cardType == s[|s| - 1].cardType && card.superType == s[|s| - 1].superType
      && card.energy == s[|s| - 1].energy && card.power == s[|s| - 1].power && card.might == s[|s| - 1].might
      && card.colors == s[|s| - 1].colors
  {
    var card := CardOf(s);
    CodesDedup(s);
    DedupHead(Codes(s));
    assert Codes(s)[0] == s[0].variantNumber;
    SortHead(group, VariantSortKey);
    forall e | e in group ensures !StrLt(e.releaseDate, card.releaseDate) {
      EarlierDateSortsFirst(e, s[0]);
    }
  }

  /** A strictly earlier release date decides the sort key. */
  lemma EarlierDateSortsFirst(a: VariantEntry, b: VariantEntry)
    ensures StrLt(a.releaseDate, b.releaseDate) ==> KeyLt(VariantSortKey(a), VariantSortKey(b))
  {
    var ka, kb := VariantSortKey(a), VariantSortKey(b);
    StrLtIrreflexive(a.releaseDate);
    assert StrLt(a.releaseDate, b.releaseDate) ==> ka[0] != kb[0] && PartLt(ka[0], kb[0]);
  }

  /** `fetch_cards` after the page payload is parsed: locate the items, map
      every dictionary among them, and group the entries. */
  function FetchCards(data: Json, handler: (Option<string>, string, string) -> string,
                      htmlText: string -> string): (r: Result<seq<Card>>)
    ensures r.Err? <==> LocateItems(data).Err? || MapAll(LocateItems(data).value, MapItem(handler, htmlText)).Err?
    ensures LocateItems(data).Ok? && MapAll(LocateItems(data).value, MapItem(handler, htmlText)).Ok? ==>
      r == Ok(Assemble(MapAll(LocateItems(data).value, MapItem(handler, htmlText)).value))
  {
    var items :- LocateItems(data);
    var entries :- MapAll(items, MapItem(handler, htmlText));
    Ok(Assemble(entries))
  }
}
