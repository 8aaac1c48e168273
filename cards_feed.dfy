/** `extract_cards_array` (scripts/cards.py): the card list inside the
    JSON-lines answer of the card search API. Decoding one line is the
    `decode` parameter (`None` for a line `json.loads` rejects). */
module CardsFeed {
  import opened Wrappers
  import opened Json
  import opened Text

  /** `s.split(c)`: the pieces between the occurrences of `c`. */
  function SplitOn(s: string, c: char): (r: seq<string>)
    ensures |r| >= 1
    ensures forall i :: 0 <= i < |r| ==> !Contains(r[i], c)
    decreases |s|
  {
    if !Contains(s, c) then [s]
    else
      var rest := After(s, c);
      assert s == Before(s, c) + [c] + rest;
      [Before(s, c)] + SplitOn(rest, c)
  }

  /** `c.join(parts)`. */
  function JoinOn(parts: seq<string>, c: char): string
    requires |parts| >= 1
  {
    if |parts| == 1 then parts[0] else parts[0] + [c] + JoinOn(parts[1..], c)
  }

  /** Splitting and joining again gives the text back. */
  lemma {:induction false} SplitJoin(s: string, c: char)
    ensures JoinOn(SplitOn(s, c), c) == s
    decreases |s|
  {
    if Contains(s, c) {
      var rest := After(s, c);
      assert s == Before(s, c) + [c] + rest;
      SplitJoin(rest, c);
    }
  }

  /** Splitting a piece without `c`, then `c`, then more text. */
  lemma SplitCons(p: string, c: char, rest: string)
    requires !Contains(p, c)
    ensures SplitOn(p + [c] + rest, c) == [p] + SplitOn(rest, c)
  {
    var s := p + [c] + rest;
    assert s[|p|] == c;
    assert Contains(s, c);
    var k := IndexOf(s, c);
    assert forall i :: 0 <= i < |p| ==> s[i] == p[i];
    assert k == |p|;
    assert Before(s, c) == p;
    assert After(s, c) == rest;
  }

  /** Pieces without `c` are recovered by splitting their join. */
  lemma {:induction false} JoinSplit(parts: seq<string>, c: char)
    requires |parts| >= 1 && forall i :: 0 <= i < |parts| ==> !Contains(parts[i], c)
    ensures SplitOn(JoinOn(parts, c), c) == parts
  {
    if |parts| > 1 {
      JoinSplit(parts[1..], c);
      SplitCons(parts[0], c, JoinOn(parts[1..], c));
    }
  }

  /** A dictionary with one of the keys a card has. */
  predicate LooksLikeCard(item: Json)
  {
    Has(item, "id") || Has(item, "name") || Has(item, "type") || Has(item, "cardVariants")
  }

  /** The list at `json[2][0]` of a line whose `json` is a list of at least
      three entries headed by the version number 3; `None` otherwise. */
  function CardsList(obj: Json): (r: Option<seq<Json>>)
    ensures r.Some? <==>
      && Has(obj, "json")
      && var data := GetOr(obj, "json", JNull);
      && data.JArr? && |data.items| >= 3 && data.items[0] == JInt(3)
      && data.items[2].JArr? && |data.items[2].items| > 0
      && data.items[2].items[0].JArr? && |data.items[2].items[0].items| > 0
    ensures r.Some? ==> r.value == GetOr(obj, "json", JNull).items[2].items[0].items
  {
    if !Has(obj, "json") then None
    else
      var data := GetOr(obj, "json", JNull);
      if !(data.JArr? && |data.items| >= 3 && data.items[0] == JInt(3)) then None
      else
        var outer := data.items[2];
        if !(outer.JArr? && |outer.items| > 0 && outer.items[0].JArr? && |outer.items[0].items| > 0) then None
        else Some(outer.items[0].items)
  }

  /** The cards array inside one decoded line, following the shapes
      `{"json": [3, _, [[[cards...]]]]}` and the two fallbacks the code
      accepts; `None` when the line has none of them. */
  function CardsArrayOf(obj: Json): (r: Option<seq<Json>>)
    ensures CardsList(obj).None? ==> r.None?
    ensures r.Some? ==> |r.value| > 0 && r.value[0].JObj?
    ensures CardsList(obj).Some? ==>
      var first := CardsList(obj).value[0];
      && (first.JArr? && |first.items| > 0 && first.items[0].JObj? ==> r == Some(first.items))
      && (first.JObj? ==> (r.Some? <==> LooksLikeCard(first)) && (r.Some? ==> r.value == CardsList(obj).value))
      && (!first.JObj? && !(first.JArr? && |first.items| > 0 && first.items[0].JObj?) ==> r.None?)
  {
    match CardsList(obj)
    case None => None
    case Some(cards) =>
      var first := cards[0];
      if first.JArr? && |first.items| > 0 && first.items[0].JObj? && LooksLikeCard(first.items[0]) then Some(first.items)
      else if first.JObj? then (if LooksLikeCard(first) then Some(cards) else None)
      else if first.JArr? && |first.items| > 0 && first.items[0].JObj? then Some(first.items)
      else None
  }

  /** The documented shape yields the innermost list. */
  lemma DocumentedShape(card: Json)
    requires card.JObj? && Has(card, "name")
    ensures CardsArrayOf(JObj([Member("json", JArr([JInt(3), JInt(0), JArr([JArr([JArr([card])])])]))])) == Some([card])
  {
  }

  /** A version number other than 3 is never the data line. */
  lemma OtherVersion(rest: seq<Json>, v: int)
    requires v != 3
    ensures CardsArrayOf(JObj([Member("json", JArr([JInt(v)] + rest))])) == None
  {
    assert JArr([JInt(v)] + rest).items[0] == JInt(v);
  }

  /** What one stripped line contributes. */
  function LineCards(line: string, decode: string -> Option<Json>): (r: Option<seq<Json>>)
    ensures var stripped := StripSpace(line);
      r.Some? <==> stripped != [] && decode(stripped).Some? && CardsArrayOf(decode(stripped).value).Some?
    ensures r.Some? ==> r == CardsArrayOf(decode(StripSpace(line)).value) && |r.value| > 0
  {
    var stripped := StripSpace(line);
    if stripped == [] then None
    else match decode(stripped)
      case None => None
      case Some(obj) => CardsArrayOf(obj)
  }

  /** The lines scanned from the last to the first for one whose `find`
      answers. */
  function ScanLines(lines: seq<string>, find: string -> Option<seq<Json>>): Result<seq<Json>>
  {
    if lines == [] then Err("ValueError: Could not find cards array in response")
    else match find(lines[|lines| - 1])
      case Some(cards) => Ok(cards)
      case None => ScanLines(lines[..|lines| - 1], find)
  }

  function LineFinder(decode: string -> Option<Json>): string -> Option<seq<Json>>
  {
    line => LineCards(line, decode)
  }

  function ExtractCardsArray(text: string, decode: string -> Option<Json>): Result<seq<Json>>
  {
    ScanLines(SplitOn(StripSpace(text), '\n'), LineFinder(decode))
  }

  /** The scan fails exactly when no line holds a cards array, and
      otherwise returns the array of the last line that holds one. */
  lemma {:induction false} ScanFindsLast(lines: seq<string>, find: string -> Option<seq<Json>>) returns (k: nat)
    ensures ScanLines(lines, find).Err? <==> forall i :: 0 <= i < |lines| ==> find(lines[i]).None?
    ensures ScanLines(lines, find).Ok? ==>
      && k < |lines| && find(lines[k]) == Some(ScanLines(lines, find).value)
      && forall i :: k < i < |lines| ==> find(lines[i]).None?
  {
    k := 0;
    if lines != [] {
      var init := lines[..|lines| - 1];
      forall i | 0 <= i < |init| ensures lines[i] == init[i] {}
      if find(lines[|lines| - 1]).Some? {
        k := |lines| - 1;
      } else {
        k := ScanFindsLast(init, find);
      }
    }
  }

  /** The loop of `extract_cards_array`: the lines from the last to the
      first, stopping at the first one `find` answers for. */
  method ScanBackward(lines: seq<string>, find: string -> Option<seq<Json>>) returns (r: Result<seq<Json>>)
    ensures r == ScanLines(lines, find)
  {
    var i := |lines|;
    assert lines[..i] == lines;
    while i > 0
      invariant 0 <= i <= |lines|
      invariant ScanLines(lines, find) == ScanLines(lines[..i], find)
    {
      assert lines[..i][..i - 1] == lines[..i - 1] && lines[..i][i - 1] == lines[i - 1];
      var cards := find(lines[i - 1]);
      if cards.Some? {
        return Ok(cards.value);
      }
      i := i - 1;
    }
    r := Err("ValueError: Could not find cards array in response");
  }

  /** `extract_cards_array`. */
  method ExtractCards(text: string, decode: string -> Option<Json>) returns (r: Result<seq<Json>>)
    ensures r == ExtractCardsArray(text, decode)
  {
    var lines := SplitOn(StripSpace(text), '\n');
    r := ScanBackward(lines, LineFinder(decode));
  }
}
