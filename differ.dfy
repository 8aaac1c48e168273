/** `compare_cards` (worker/official.py): the report of what changed between
    the previously published catalog and the new one. */
module Differ {
  import opened Wrappers
  import opened Lists
  import opened Records

  datatype Report = Report(
    added: nat,
    updated: nat,
    removed: nat,
    unchangedCount: nat,
    totalVariantsAdded: nat,
    totalVariantsRemoved: nat,
    addedNames: seq<string>,
    updatedNames: seq<string>,
    removedNames: seq<string>,
    isFirstRun: bool)

  function CardNames(cards: seq<Card>): (r: seq<string>)
    ensures |r| == |cards| && forall i :: 0 <= i < |cards| ==> r[i] == cards[i].name
  {
    seq(|cards|, i requires 0 <= i < |cards| => cards[i].name)
  }

  /** The cards indexed by name: a later card replaces an earlier one of
      the same name. */
  function ByName(cards: seq<Card>): (r: map<string, Card>)
    ensures forall n :: n in r <==> n in CardNames(cards)
  {
    if cards == [] then map[]
    else
      var last := cards[|cards| - 1];
      var init := cards[..|cards| - 1];
      assert CardNames(cards) == CardNames(init) + [last.name];
      ByName(init)[last.name := last]
  }

  /** The elements of a list, as `set(...)` sees them. */
  function Elems(s: seq<string>): set<string>
  {
    set x | x in s
  }

  /** The field comparison of `compare_cards`: list fields as sets, the
      other fields by equality; `variantImages` is not compared. */
  predicate SameCard(a: Card, b: Card)
  {
    && a.name == b.name
    && a.description == b.description
    && a.variantNumber == b.variantNumber
    && Elems(a.variants) == Elems(b.variants)
    && a.cardType == b.cardType
    && a.superType == b.superType
    && a.energy == b.energy
    && a.power == b.power
    && a.might == b.might
    && Elems(a.colors) == Elems(b.colors)
    && Elems(a.tags) == Elems(b.tags)
    && a.releaseDate == b.releaseDate
  }

  datatype Partition = Partition(added: seq<string>, updated: seq<string>, same: seq<string>)

  /** The loop over the new cards: each name is added, updated or
      unchanged. */
  function Classify(names: seq<string>, oldMap: map<string, Card>, newMap: map<string, Card>): (p: Partition)
    requires forall n :: n in names ==> n in newMap
    ensures |p.added| + |p.updated| + |p.same| == |names|
  {
    if names == [] then Partition([], [], [])
    else
      var p := Classify(names[..|names| - 1], oldMap, newMap);
      var n := names[|names| - 1];
      if n !in oldMap then p.(added := p.added + [n])
      else if SameCard(oldMap[n], newMap[n]) then p.(same := p.same + [n])
      else p.(updated := p.updated + [n])
  }

  /** The loop over the old names: those the new catalog lacks. */
  function Absent(names: seq<string>, m: map<string, Card>): (r: seq<string>)
    ensures |r| <= |names|
  {
    if names == [] then []
    else
      var n := names[|names| - 1];
      Absent(names[..|names| - 1], m) + (if n in m then [] else [n])
  }

  function SumVariants(names: seq<string>, m: map<string, Card>): nat
    requires forall n :: n in names ==> n in m
  {
    if names == [] then 0
    else SumVariants(names[..|names| - 1], m) + |m[names[|names| - 1]].variants|
  }

  function CountVariants(cards: seq<Card>): nat
  {
    if cards == [] then 0 else CountVariants(cards[..|cards| - 1]) + |cards[|cards| - 1].variants|
  }

  /** The variants gained by the updated cards. */
  function Growth(names: seq<string>, oldMap: map<string, Card>, newMap: map<string, Card>): nat
    requires forall n :: n in names ==> n in oldMap && n in newMap
  {
    if names == [] then 0
    else
      var n := names[|names| - 1];
      var o, w := |oldMap[n].variants|, |newMap[n].variants|;
      Growth(names[..|names| - 1], oldMap, newMap) + (if w > o then w - o else 0)
  }

  /** The variants lost by the updated cards. */
  function Shrink(names: seq<string>, oldMap: map<string, Card>, newMap: map<string, Card>): nat
    requires forall n :: n in names ==> n in oldMap && n in newMap
  {
    if names == [] then 0
    else
      var n := names[|names| - 1];
      var o, w := |oldMap[n].variants|, |newMap[n].variants|;
      Shrink(names[..|names| - 1], oldMap, newMap) + (if w < o then o - w else 0)
  }

  lemma {:induction false} ClassifyMembers(names: seq<string>, oldMap: map<string, Card>, newMap: map<string, Card>)
    requires forall n :: n in names ==> n in newMap
    ensures var p := Classify(names, oldMap, newMap);
      && (forall n :: n in p.added <==> n in names && n !in oldMap)
      && (forall n :: n in p.updated <==> n in names && n in oldMap && !SameCard(oldMap[n], newMap[n]))
      && (forall n :: n in p.same <==> n in names && n in oldMap && SameCard(oldMap[n], newMap[n]))
  {
    if names != [] {
      var init := names[..|names| - 1];
      ClassifyMembers(init, oldMap, newMap);
      assert names == init + [names[|names| - 1]];
    }
  }

  lemma {:induction false} AbsentMembers(names: seq<string>, m: map<string, Card>)
    ensures forall n :: n in Absent(names, m) <==> n in names && n !in m
  {
    if names != [] {
      var init := names[..|names| - 1];
      AbsentMembers(init, m);
      assert names == init + [names[|names| - 1]];
    }
  }

  /** The report built from the partition of the new names and the removed
      names: counts, variant totals and the name lists. */
  function Tally(p: Partition, removed: seq<string>, oldMap: map<string, Card>, newMap: map<string, Card>): Report
    requires forall n :: n in p.added ==> n in newMap
    requires forall n :: n in p.updated ==> n in oldMap && n in newMap
    requires forall n :: n in removed ==> n in oldMap
  {
    Report(|p.added|, |p.updated|, |removed|, |p.same|,
      SumVariants(p.added, newMap) + Growth(p.updated, oldMap, newMap),
      Shrink(p.updated, oldMap, newMap) + SumVariants(removed, oldMap),
      p.added, p.updated, removed, false)
  }

  /** The comparison of two catalogs, given their by-name maps and their
      names in first-seen order. */
  function SnapshotOf(oldMap: map<string, Card>, newMap: map<string, Card>,
                      oldOrder: seq<string>, newOrder: seq<string>): Report
    requires forall n :: n in oldOrder ==> n in oldMap
    requires forall n :: n in newOrder ==> n in newMap
  {
    var p := Classify(newOrder, oldMap, newMap);
    var removed := Absent(oldOrder, newMap);
    ClassifyMembers(newOrder, oldMap, newMap);
    AbsentMembers(oldOrder, newMap);
    Tally(p, removed, oldMap, newMap)
  }

  /** The comparison of two catalogs. */
  function CompareSnapshots(oldCards: seq<Card>, current: seq<Card>): Report
  {
    OrderKeys(current);
    OrderKeys(oldCards);
    SnapshotOf(ByName(oldCards), ByName(current), Dedup(CardNames(oldCards)), Dedup(CardNames(current)))
  }

  /** Every name of the first-seen order is a key of the map. */
  lemma OrderKeys(cards: seq<Card>)
    ensures forall n :: n in Dedup(CardNames(cards)) ==> n in ByName(cards)
  {
    DedupElements(CardNames(cards));
  }

  /** What `compare_cards` returns. */
  function Compare(previous: Option<seq<Card>>, current: seq<Card>): Report
  {
    match previous
    case None =>
      Report(|current|, 0, 0, 0, CountVariants(current), 0, CardNames(current), [], [], true)
    case Some(oldCards) => CompareSnapshots(oldCards, current)
  }

  /** The two dictionary comprehensions: the map and its keys in
      first-seen order. */
  method IndexByName(cards: seq<Card>) returns (byName: map<string, Card>, order: seq<string>)
    ensures byName == ByName(cards) && order == Dedup(CardNames(cards))
  {
    byName := map[];
    order := [];
    for i := 0 to |cards|
      invariant byName == ByName(cards[..i]) && order == Dedup(CardNames(cards[..i]))
    {
      assert cards[..i + 1][..i] == cards[..i];
      assert CardNames(cards[..i + 1])[..i] == CardNames(cards[..i]);
      DedupElements(CardNames(cards[..i]));
      if cards[i].name !in byName {
        order := order + [cards[i].name];
      }
      byName := byName[cards[i].name := cards[i]];
    }
    assert cards[..|cards|] == cards;
  }

  /** The first-run branch: every card is added and its variants counted. */
  method FirstRunReport(current: seq<Card>) returns (report: Report)
    ensures report == Compare(None, current)
  {
    var addedNames: seq<string> := [];
    var total: nat := 0;
    for i := 0 to |current|
      invariant addedNames == CardNames(current[..i]) && total == CountVariants(current[..i])
    {
      assert current[..i + 1][..i] == current[..i];
      addedNames := addedNames + [current[i].name];
      total := total + |current[i].variants|;
    }
    assert current[..|current|] == current;
    report := Report(|current|, 0, 0, 0, total, 0, addedNames, [], [], true);
  }

  /** The loop over the new cards. */
  method ClassifyNames(names: seq<string>, oldMap: map<string, Card>, newMap: map<string, Card>)
      returns (added: seq<string>, updated: seq<string>, same: seq<string>)
    requires forall n :: n in names ==> n in newMap
    ensures Partition(added, updated, same) == Classify(names, oldMap, newMap)
  {
    added, updated, same := [], [], [];
    for i := 0 to |names|
      invariant Partition(added, updated, same) == Classify(names[..i], oldMap, newMap)
    {
      assert names[..i + 1][..i] == names[..i];
      var name := names[i];
      if name !in oldMap {
        added := added + [name];
      } else if SameCard(oldMap[name], newMap[name]) {
        same := same + [name];
      } else {
        updated := updated + [name];
      }
    }
    assert names[..|names|] == names;
  }

  /** The loop over the old names. */
  method RemovedNames(names: seq<string>, newMap: map<string, Card>) returns (removed: seq<string>)
    ensures removed == Absent(names, newMap)
  {
    removed := [];
    for i := 0 to |names|
      invariant removed == Absent(names[..i], newMap)
    {
      assert names[..i + 1][..i] == names[..i];
      if names[i] !in newMap {
        removed := removed + [names[i]];
      }
    }
    assert names[..|names|] == names;
  }

  /** The variants of the named cards, summed. */
  method SumOf(names: seq<string>, m: map<string, Card>) returns (total: nat)
    requires forall n :: n in names ==> n in m
    ensures total == SumVariants(names, m)
  {
    total := 0;
    for i := 0 to |names|
      invariant total == SumVariants(names[..i], m)
    {
      assert names[..i + 1][..i] == names[..i];
      total := total + |m[names[i]].variants|;
    }
    assert names[..|names|] == names;
  }

  /** The loop over the updated cards: variants gained and lost. */
  method Deltas(names: seq<string>, oldMap: map<string, Card>, newMap: map<string, Card>)
      returns (gained: nat, lost: nat)
    requires forall n :: n in names ==> n in oldMap && n in newMap
    ensures gained == Growth(names, oldMap, newMap) && lost == Shrink(names, oldMap, newMap)
  {
    gained, lost := 0, 0;
    for i := 0 to |names|
      invariant gained == Growth(names[..i], oldMap, newMap) && lost == Shrink(names[..i], oldMap, newMap)
    {
      assert names[..i + 1][..i] == names[..i];
      var oldCount := |oldMap[names[i]].variants|;
      var newCount := |newMap[names[i]].variants|;
      if newCount > oldCount {
        gained := gained + (newCount - oldCount);
      } else if newCount < oldCount {
        lost := lost + (oldCount - newCount);
      }
    }
    assert names[..|names|] == names;
  }

  /** `compare_cards`. */
  /** The loops over the two indexed catalogs: classify the new names, find
      the removed ones and sum the variant deltas. */
  method TallyReport(oldMap: map<string, Card>, newMap: map<string, Card>,
                     oldOrder: seq<string>, newOrder: seq<string>) returns (report: Report)
    requires forall n :: n in oldOrder ==> n in oldMap
    requires forall n :: n in newOrder ==> n in newMap
    ensures report == SnapshotOf(oldMap, newMap, oldOrder, newOrder)
  {
    var added, updated, same := ClassifyNames(newOrder, oldMap, newMap);
    var removed := RemovedNames(oldOrder, newMap);
    TallyReady(oldMap, newMap, oldOrder, newOrder);
    var gained, lost := VariantTotals(Partition(added, updated, same), removed, oldMap, newMap);
    report := Report(|added|, |updated|, |removed|, |same|, gained, lost, added, updated, removed, false);
  }

  /** The names the tally looks up are keys of the maps it looks them up in. */
  lemma TallyReady(oldMap: map<string, Card>, newMap: map<string, Card>,
                   oldOrder: seq<string>, newOrder: seq<string>)
    requires forall n :: n in oldOrder ==> n in oldMap
    requires forall n :: n in newOrder ==> n in newMap
    ensures var p := Classify(newOrder, oldMap, newMap);
      && (forall n :: n in p.added ==> n in newMap)
      && (forall n :: n in p.updated ==> n in oldMap && n in newMap)
      && (forall n :: n in Absent(oldOrder, newMap) ==> n in oldMap)
  {
    ClassifyMembers(newOrder, oldMap, newMap);
    AbsentMembers(oldOrder, newMap);
  }

  /** The three summing loops: variants of the added cards plus growth of
      the updated ones; shrinkage of the updated ones plus variants of the
      removed cards. */
  method VariantTotals(p: Partition, removed: seq<string>, oldMap: map<string, Card>, newMap: map<string, Card>)
      returns (gained: nat, lost: nat)
    requires forall n :: n in p.added ==> n in newMap
    requires forall n :: n in p.updated ==> n in oldMap && n in newMap
    requires forall n :: n in removed ==> n in oldMap
    ensures gained == Tally(p, removed, oldMap, newMap).totalVariantsAdded
    ensures lost == Tally(p, removed, oldMap, newMap).totalVariantsRemoved
  {
    var addedVariants := SumOf(p.added, newMap);
    var grown, shrunk := Deltas(p.updated, oldMap, newMap);
    var removedVariants := SumOf(removed, oldMap);
    gained, lost := addedVariants + grown, shrunk + removedVariants;
  }

  /** The branch with a previous catalog: index both, then tally. */
  method SnapshotReport(oldCards: seq<Card>, current: seq<Card>) returns (report: Report)
    ensures report == CompareSnapshots(oldCards, current)
  {
    var oldByName, oldOrder := IndexByName(oldCards);
    var newByName, newOrder := IndexByName(current);
    OrderKeys(current);
    OrderKeys(oldCards);
    report := TallyReport(oldByName, newByName, oldOrder, newOrder);
  }

  method CompareCards(previous: Option<seq<Card>>, current: seq<Card>) returns (report: Report)
    ensures report == Compare(previous, current)
  {
    if previous.None? {
      report := FirstRunReport(current);
    } else {
      report := SnapshotReport(previous.value, current);
    }
  }

  /** With no previous catalog, every new card is added, names in order and
      duplicates kept, and all its variants count as added. */
  lemma FirstRun(current: seq<Card>)
    ensures var r := Compare(None, current);
      && r.isFirstRun && r.added == |current| && r.addedNames == CardNames(current)
      && r.updated == 0 && r.removed == 0 && r.unchangedCount == 0
      && r.totalVariantsAdded == CountVariants(current) && r.totalVariantsRemoved == 0
  {
  }

  /** Each distinct new name is in exactly one of added, updated and
      unchanged: added when the old catalog lacks it, updated when the
      compared fields differ, unchanged otherwise; removed holds exactly the
      old names the new catalog lacks. Every list is duplicate-free. */
  lemma ComparePartition(oldCards: seq<Card>, current: seq<Card>)
    ensures var r := Compare(Some(oldCards), current);
      var oldMap, newMap := ByName(oldCards), ByName(current);
      && !r.isFirstRun
      && r.added + r.updated + r.unchangedCount == |Dedup(CardNames(current))|
      && (forall n :: n in r.addedNames <==> n in CardNames(current) && n !in CardNames(oldCards))
      && (forall n :: n in r.updatedNames <==> n in CardNames(current) && n in CardNames(oldCards)
                                               && !SameCard(oldMap[n], newMap[n]))
      && (forall n :: n in r.removedNames <==> n in CardNames(oldCards) && n !in CardNames(current))
      && r.added == |r.addedNames| && r.updated == |r.updatedNames| && r.removed == |r.removedNames|
      && NoDup(r.addedNames) && NoDup(r.updatedNames) && NoDup(r.removedNames)
  {
    var oldMap, newMap := ByName(oldCards), ByName(current);
    var names := Dedup(CardNames(current));
    DedupElements(CardNames(current));
    DedupElements(CardNames(oldCards));
    ClassifyMembers(names, oldMap, newMap);
    AbsentMembers(Dedup(CardNames(oldCards)), newMap);
    ClassifyNoDup(names, oldMap, newMap);
    AbsentNoDup(Dedup(CardNames(oldCards)), newMap);
  }

  lemma {:induction false} ClassifyNoDup(names: seq<string>, oldMap: map<string, Card>, newMap: map<string, Card>)
    requires NoDup(names) && forall n :: n in names ==> n in newMap
    ensures var p := Classify(names, oldMap, newMap);
      NoDup(p.added) && NoDup(p.updated) && NoDup(p.same)
  {
    if names != [] {
      var init := names[..|names| - 1];
      ClassifyNoDup(init, oldMap, newMap);
      ClassifyMembers(init, oldMap, newMap);
    }
  }

  lemma {:induction false} AbsentNoDup(names: seq<string>, m: map<string, Card>)
    requires NoDup(names)
    ensures NoDup(Absent(names, m))
  {
    if names != [] {
      var init := names[..|names| - 1];
      AbsentNoDup(init, m);
      AbsentMembers(init, m);
    }
  }

  /** When a name occurs more than once in a catalog, its last card is the
      one compared. */
  lemma {:induction false} LastCardWins(cards: seq<Card>, i: nat)
    requires i < |cards|
    requires forall j :: i < j < |cards| ==> cards[j].name != cards[i].name
    ensures ByName(cards)[cards[i].name] == cards[i]
  {
    if i < |cards| - 1 {
      var init := cards[..|cards| - 1];
      LastCardWins(init, i);
    }
  }

  /** Reordering a list field or changing the images does not make a card
      count as updated. */
  lemma SameCardIgnoresOrderAndImages(a: Card, variants: seq<string>, colors: seq<string>, tags: seq<string>,
                                      images: seq<string>)
    requires Elems(variants) == Elems(a.variants) && Elems(colors) == Elems(a.colors) && Elems(tags) == Elems(a.tags)
    ensures SameCard(a, a.(variants := variants, colors := colors, tags := tags, variantImages := images))
  {
  }

  function SimpleCard(name: string, variants: seq<string>): Card
  {
    Card(name, "", "", variants, [], "", None, 0, 0, 0, [], [], "")
  }

  /** The old catalog has Ashe with one variant; the new one has Ashe with
      two and Braum with one: Braum is added, Ashe updated, nothing removed,
      and two variants are added. */
  lemma AsheAndBraum()
    ensures var r := Compare(Some([SimpleCard("Ashe", ["OGN-001"])]),
                             [SimpleCard("Ashe", ["OGN-001", "OGN-001a"]), SimpleCard("Braum", ["OGN-002"])]);
      && r.added == 1 && r.addedNames == ["Braum"]
      && r.updated == 1 && r.updatedNames == ["Ashe"]
      && r.removed == 0 && r.unchangedCount == 0
      && r.totalVariantsAdded == 2 && r.totalVariantsRemoved == 0
  {
    var ashe := SimpleCard("Ashe", ["OGN-001"]);
    var ashe2 := SimpleCard("Ashe", ["OGN-001", "OGN-001a"]);
    var braum := SimpleCard("Braum", ["OGN-002"]);
    var oldCards, current := [ashe], [ashe2, braum];
    assert CardNames(current) == ["Ashe", "Braum"];
    assert CardNames(oldCards) == ["Ashe"];
    DedupTwo("Ashe", "Braum");
    TwoCardsByName(ashe2, braum);
    assert oldCards[..0] == [];
    assert ByName(oldCards) == map["Ashe" := ashe];
    AsheAndBraumTally(ByName(oldCards), ByName(current));
  }

  /** The tally of the example, once both catalogs are indexed. */
  lemma AsheAndBraumTally(oldMap: map<string, Card>, newMap: map<string, Card>)
    requires oldMap == map["Ashe" := SimpleCard("Ashe", ["OGN-001"])]
    requires newMap == map["Ashe" := SimpleCard("Ashe", ["OGN-001", "OGN-001a"]), "Braum" := SimpleCard("Braum", ["OGN-002"])]
    ensures var r := SnapshotOf(oldMap, newMap, ["Ashe"], ["Ashe", "Braum"]);
      && r.added == 1 && r.addedNames == ["Braum"]
      && r.updated == 1 && r.updatedNames == ["Ashe"]
      && r.removed == 0 && r.unchangedCount == 0
      && r.totalVariantsAdded == 2 && r.totalVariantsRemoved == 0
  {
    AsheAndBraumSplit(oldMap, newMap);
    AsheAndBraumCounts(oldMap, newMap);
  }

  /** How the example's names are classified. */
  lemma AsheAndBraumSplit(oldMap: map<string, Card>, newMap: map<string, Card>)
    requires oldMap == map["Ashe" := SimpleCard("Ashe", ["OGN-001"])]
    requires newMap == map["Ashe" := SimpleCard("Ashe", ["OGN-001", "OGN-001a"]), "Braum" := SimpleCard("Braum", ["OGN-002"])]
    ensures Classify(["Ashe", "Braum"], oldMap, newMap) == Partition(["Braum"], ["Ashe"], [])
    ensures Absent(["Ashe"], newMap) == []
  {
    AsheChanged(oldMap["Ashe"], newMap["Ashe"]);
    assert ["Ashe", "Braum"][..1] == ["Ashe"];
    assert Classify(["Ashe"], oldMap, newMap) == Partition([], ["Ashe"], []);
  }

  /** The example's variant counts. */
  lemma AsheAndBraumCounts(oldMap: map<string, Card>, newMap: map<string, Card>)
    requires oldMap == map["Ashe" := SimpleCard("Ashe", ["OGN-001"])]
    requires newMap == map["Ashe" := SimpleCard("Ashe", ["OGN-001", "OGN-001a"]), "Braum" := SimpleCard("Braum", ["OGN-002"])]
    ensures SumVariants(["Braum"], newMap) == 1
    ensures Growth(["Ashe"], oldMap, newMap) == 1
    ensures Shrink(["Ashe"], oldMap, newMap) == 0
  {
  }

  lemma TwoCardsByName(a: Card, b: Card)
    requires a.name != b.name
    ensures ByName([a, b]) == map[a.name := a, b.name := b]
  {
    assert [a, b][..1] == [a];
    assert [a][..0] == [];
    assert ByName([a]) == map[a.name := a];
  }

  lemma AsheChanged(ashe: Card, ashe2: Card)
    requires ashe == SimpleCard("Ashe", ["OGN-001"]) && ashe2 == SimpleCard("Ashe", ["OGN-001", "OGN-001a"])
    ensures !SameCard(ashe, ashe2)
  {
    assert "OGN-001a" in Elems(ashe2.variants) && "OGN-001a" !in Elems(ashe.variants);
  }

  lemma DedupTwo(a: string, b: string)
    requires a != b
    ensures Dedup([a]) == [a] && Dedup([a, b]) == [a, b]
  {
    assert [a, b][..1] == [a];
    assert [a][..0] == [];
  }
}
