/** Variant codes in the worker (worker/official.py): building a code from a
    raw record, normalising its suffix, the release-date table, the storage
    folder of a code, and the sort key that orders the variants of a card. */
module VariantCodes {
  import opened Wrappers
  import opened Json
  import opened Text
  import opened Sorting
  import opened Records

  /** The release date of a set the table does not know: far in the future,
      so that such variants sort after every known one. */
  const DefaultReleaseDate: string := "9999-12-31"

  const ReleaseDatesBySet: map<string, string> :=
    map["SFD" := "2026-02-13", "OGN" := "2025-10-31", "OGS" := "2025-10-31"]

  /** A release date the table assigns to a known set. */
  predicate KnownDate(d: string)
  {
    d == "2026-02-13" || d == "2025-10-31"
  }

  lemma KnownDatesAreTheTable()
    ensures forall d :: d in ReleaseDatesBySet.Values <==> KnownDate(d)
  {
    assert ReleaseDatesBySet["SFD"] == "2026-02-13";
    assert ReleaseDatesBySet["OGN"] == "2025-10-31";
  }

  /** A trailing `*` becomes `s`; nothing else changes. */
  function NormalizeVariantNumber(value: string): (r: string)
    ensures |r| == |value|
    ensures r == [] || r[|r| - 1] != '*'
    ensures forall i :: 0 <= i < |value| - 1 ==> r[i] == value[i]
    ensures value != [] && value[|value| - 1] == '*' ==> r[|r| - 1] == 's'
    ensures value == [] || value[|value| - 1] != '*' ==> r == value
  {
    if EndsWith(value, "*") then value[..|value| - 1] + "s" else value
  }

  lemma NormalizeIdempotent(value: string)
    ensures NormalizeVariantNumber(NormalizeVariantNumber(value)) == NormalizeVariantNumber(value)
  {
  }

  /** `card.get("set", {})` and its `.get("value", {})` are both
      dictionaries, so that reading the id raises nothing. */
  predicate SetBlocksAreDicts(card: Json)
    requires card.JObj?
  {
    var s := GetOr(card, "set", Empty);
    s.JObj? && GetOr(s, "value", Empty).JObj?
  }

  /** The id under the card's `set` and `value` blocks: the first two steps
      raise AttributeError when they meet a value that is not a dictionary;
      a missing id reads as `None`. */
  function SetIdOf(card: Json): (r: Result<Json>)
    requires card.JObj?
    ensures r.Err? <==> !SetBlocksAreDicts(card)
    ensures r.Ok? ==> match Path(card, ["set", "value", "id"])
      case Some(id) => r.value == id
      case None => r.value == JNull
  {
    var s := DictGet(card, "set", Empty).value;
    var v :- DictGet(s, "value", Empty);
    var id := DictGet(v, "id", JNull);
    PathStep(card, "set", ["value", "id"]);
    PathStep(s, "value", ["id"]);
    PathStep(v, "id", []);
    id
  }

  /** The `publicCode` of a record when it is a string containing `/`. */
  function SlashCode(card: Json): (r: Option<string>)
    requires card.JObj?
    ensures r.Some? ==> Get(card.members, "publicCode") == Some(JStr(r.value)) && Contains(r.value, '/')
    ensures var pc := Get(card.members, "publicCode");
      pc.Some? && pc.value.JStr? && Contains(pc.value.s, '/') ==> r == Some(pc.value.s)
  {
    match Get(card.members, "publicCode")
    case Some(JStr(pc)) => if Contains(pc, '/') then Some(pc) else None
    case _ => None
  }

  /** `card.get("collectorNumber")` when it is an `int`; a boolean is one,
      and formats as 0 or 1. */
  function CollectorOf(card: Json): (r: Option<int>)
    requires card.JObj?
    ensures r.Some? ==> Get(card.members, "collectorNumber").Some? && AsInt(Get(card.members, "collectorNumber").value) == r
    ensures Get(card.members, "collectorNumber").Some? && Get(card.members, "collectorNumber").value.JInt? ==>
      r == Some(Get(card.members, "collectorNumber").value.i)
  {
    match Get(card.members, "collectorNumber")
    case Some(c) => AsInt(c)
    case None => None
  }

  /** `str(card.get("id"))` when the id is a string or an `int`; a boolean
      is an `int` and prints as `True` or `False`. */
  function IdText(card: Json): (r: Option<string>)
    requires card.JObj?
    ensures r.Some? <==> Get(card.members, "id").Some? && (Get(card.members, "id").value.JStr? || AsInt(Get(card.members, "id").value).Some?)
    ensures Get(card.members, "id").Some? && Get(card.members, "id").value.JStr? ==> r == Some(Get(card.members, "id").value.s)
    ensures Get(card.members, "id").Some? && Get(card.members, "id").value.JInt? ==> r == Some(IntToString(Get(card.members, "id").value.i))
  {
    match Get(card.members, "id")
    case Some(JStr(id)) => Some(id)
    case Some(JInt(id)) => Some(IntToString(id))
    case Some(JBool(b)) => Some(if b then "True" else "False")
    case _ => None
  }

  /** A string set id together with an `int` collector number. */
  predicate SetAndCollector(card: Json)
    requires card.JObj?
  {
    SetIdOf(card).Ok? && SetIdOf(card).value.JStr? && CollectorOf(card).Some?
  }

  /** `build_variant_number`: the public code up to its first `/`; else the
      set id and the zero-padded collector number; else the record's own id as
      a string; else "UNKNOWN". The chosen text is normalised. The result may be
      empty: a public code that starts with `/` gives "". */
  function BuildVariantNumber(card: Json): (r: Result<string>)
    requires card.JObj?
    ensures r.Ok? ==> NormalizeVariantNumber(r.value) == r.value
    ensures r.Ok? ==> r.value == [] || r.value[|r.value| - 1] != '*'
    ensures SlashCode(card).Some? ==>
      r == Ok(NormalizeVariantNumber(Before(SlashCode(card).value, '/')))
    ensures r.Err? <==> SlashCode(card).None? && SetIdOf(card).Err?
    ensures SlashCode(card).None? && SetAndCollector(card) ==>
      r == Ok(NormalizeVariantNumber(SetIdOf(card).value.s + "-" + Pad3(CollectorOf(card).value)))
    ensures SlashCode(card).None? && SetIdOf(card).Ok? && !SetAndCollector(card) && IdText(card).Some? ==>
      r == Ok(NormalizeVariantNumber(IdText(card).value))
    ensures SlashCode(card).None? && SetIdOf(card).Ok? && !SetAndCollector(card) && IdText(card).None? ==>
      r == Ok("UNKNOWN")
  {
    match SlashCode(card)
    case Some(pc) => Ok(NormalizeVariantNumber(Before(pc, '/')))
    case None =>
      var setId :- SetIdOf(card);
      if SetAndCollector(card) then
        Ok(NormalizeVariantNumber(setId.s + "-" + Pad3(CollectorOf(card).value)))
      else
        match IdText(card)
        case Some(id) => Ok(NormalizeVariantNumber(id))
        case None => Ok("UNKNOWN")
  }

  /** `get_release_date_for_card`: the table's date for a string set id, the
      far-future default otherwise. */
  function GetReleaseDateForCard(card: Json): (r: Result<string>)
    requires card.JObj?
    ensures r.Ok? ==> KnownDate(r.value) || r.value == DefaultReleaseDate
    ensures r.Ok? ==> (KnownDate(r.value) <==> exists s :: SetIdOf(card) == Ok(JStr(s)) && s in ReleaseDatesBySet)
    ensures r.Err? <==> SetIdOf(card).Err?
    ensures forall s :: SetIdOf(card) == Ok(JStr(s)) && s in ReleaseDatesBySet ==> r == Ok(ReleaseDatesBySet[s])
    ensures SetIdOf(card).Ok? && !(SetIdOf(card).value.JStr? && SetIdOf(card).value.s in ReleaseDatesBySet) ==>
      r == Ok(DefaultReleaseDate)
  {
    KnownDatesAreTheTable();
    var setId :- SetIdOf(card);
    if setId.JStr? && setId.s in ReleaseDatesBySet then Ok(ReleaseDatesBySet[setId.s])
    else Ok(DefaultReleaseDate)
  }

  /** `resolve_set_folder`: the set id; else the text of the code before its
      first `-` when there is such text; else the code itself; else "unknown".
      The folder is never empty. */
  function ResolveSetFolder(setId: string, variantNumber: string): (r: string)
    ensures r != []
    ensures setId != [] ==> r == setId
    ensures setId == [] && variantNumber != [] ==> StartsWith(variantNumber, r)
    ensures setId == [] && variantNumber != [] && Before(variantNumber, '-') != [] ==> r == Before(variantNumber, '-')
    ensures setId == [] && variantNumber != [] && Before(variantNumber, '-') == [] ==> r == variantNumber
    ensures setId == [] && variantNumber == [] ==> r == "unknown"
  {
    if setId != [] then setId
    else if variantNumber != [] then
      if Contains(variantNumber, '-') && Before(variantNumber, '-') != [] then Before(variantNumber, '-')
      else variantNumber
    else "unknown"
  }

  /** Every digit of `s`, in order, the others dropped: each digit occurs
      as often as in `s`, and `DigitsInAppend` gives the order. */
  function DigitsIn(s: string): (r: string)
    ensures AllDigits(r) && |r| <= |s|
  {
    if s == [] then []
    else
      var head := if IsDigit(s[0]) then [s[0]] else [];
      assert s == [s[0]] + s[1..];
      head + DigitsIn(s[1..])
  }

  /** Every digit of `s` is kept, as often as it occurs, and nothing else. */
  lemma {:induction false} DigitsInCounts(s: string)
    ensures forall c :: IsDigit(c) ==> multiset(DigitsIn(s))[c] == multiset(s)[c]
    ensures forall c :: !IsDigit(c) ==> c !in multiset(DigitsIn(s))
  {
    if s != [] {
      DigitsInCounts(s[1..]);
      assert s == [s[0]] + s[1..];
      assert multiset(s) == multiset([s[0]]) + multiset(s[1..]);
    }
  }

  /** The digits of a concatenation are the digits of each part, in order. */
  lemma {:induction false} DigitsInAppend(a: string, b: string)
    ensures DigitsIn(a + b) == DigitsIn(a) + DigitsIn(b)
  {
    if a != [] {
      assert (a + b)[0] == a[0] && (a + b)[1..] == a[1..] + b;
      DigitsInAppend(a[1..], b);
    } else {
      assert a + b == b;
    }
  }

  /** One character contributes itself when it is a digit, nothing otherwise. */
  lemma DigitsInChar(c: char)
    ensures DigitsIn([c]) == if IsDigit(c) then [c] else []
  {
    assert [c][1..] == [];
  }

  lemma {:induction false} DigitsInDigitsThenOther(d: string, rest: string)
    requires AllDigits(d)
    requires forall i :: 0 <= i < |rest| ==> !IsDigit(rest[i])
    ensures DigitsIn(d + rest) == d
  {
    if d == [] {
      assert d + rest == rest;
      DigitsInNone(rest);
    } else {
      assert (d + rest)[1..] == d[1..] + rest;
      DigitsInDigitsThenOther(d[1..], rest);
    }
  }

  lemma {:induction false} DigitsInNone(s: string)
    requires forall i :: 0 <= i < |s| ==> !IsDigit(s[i])
    ensures DigitsIn(s) == []
  {
    if s != [] { DigitsInNone(s[1..]); }
  }

  /** `parse_variant_components`: the number and the lower-cased suffix that
      order codes of one set. All digits after the first `-` are gathered,
      wherever they stand, and the suffix starts after as many characters as
      there were digits. */
  function ParseVariantComponents(variantNumber: string): (r: (nat, string))
  {
    if !Contains(variantNumber, '-') then (0, Lower(variantNumber))
    else
      var rest := After(variantNumber, '-');
      var digits := DigitsIn(rest);
      if digits != [] then (DigitsValue(digits), Lower(rest[|digits|..]))
      else (0, Lower(rest))
  }

  /** A code without `-` parses to number 0 and the whole code, lower-cased. */
  lemma ParseWithoutDash(code: string)
    requires !Contains(code, '-')
    ensures ParseVariantComponents(code) == (0, Lower(code))
  {
  }

  /** `SET-<digits><letters>` parses to the digits' value and the letters,
      lower-cased: "OGN-066a" gives (66, "a"). */
  lemma ParseWellFormed(setCode: string, digits: string, suffix: string)
    requires !Contains(setCode, '-') && digits != [] && AllDigits(digits)
    requires forall i :: 0 <= i < |suffix| ==> !IsDigit(suffix[i])
    ensures ParseVariantComponents(setCode + "-" + digits + suffix) == (DigitsValue(digits), Lower(suffix))
  {
    var code := setCode + "-" + digits + suffix;
    AfterFirstDash(setCode, digits + suffix);
    assert code == setCode + "-" + (digits + suffix);
    DigitsInDigitsThenOther(digits, suffix);
    assert (digits + suffix)[|digits|..] == suffix;
  }

  lemma AfterFirstDash(head: string, tail: string)
    requires !Contains(head, '-')
    ensures Contains(head + "-" + tail, '-')
    ensures Before(head + "-" + tail, '-') == head
    ensures After(head + "-" + tail, '-') == tail
  {
    var code := head + "-" + tail;
    assert code[|head|] == '-';
    assert forall i :: 0 <= i < |head| ==> code[i] == head[i];
    assert IndexOf(code, '-') == |head|;
    assert code[..|head|] == head;
    assert code[|head| + 1..] == tail;
  }

  /** `variant_sort_key`: (release date, set id or the code's text before `-`,
      number, suffix, code). */
  function VariantSortKey(e: VariantEntry): (k: Key)
    ensures |k| == 5 && k[0] == S(e.releaseDate) && k[4] == S(e.variantNumber)
    ensures k[1] == S(if e.setId != [] then e.setId else Before(e.variantNumber, '-'))
    ensures k[2] == N(ParseVariantComponents(e.variantNumber).0) && k[3] == S(ParseVariantComponents(e.variantNumber).1)
  {
    var setId := if e.setId != [] then e.setId else Before(e.variantNumber, '-');
    var (number, suffix) := ParseVariantComponents(e.variantNumber);
    [S(e.releaseDate), S(setId), N(number), S(suffix), S(e.variantNumber)]
  }

  /** Within one release date and one set, a smaller number sorts first,
      whatever the suffixes. */
  lemma SmallerNumberFirst(a: VariantEntry, b: VariantEntry)
    requires a.releaseDate == b.releaseDate && a.setId == b.setId && a.setId != []
    requires ParseVariantComponents(a.variantNumber).0 < ParseVariantComponents(b.variantNumber).0
    ensures KeyLt(VariantSortKey(a), VariantSortKey(b))
  {
    var ka, kb := VariantSortKey(a), VariantSortKey(b);
    assert ka[0] == kb[0] && ka[1] == kb[1] && ka[2] != kb[2];
    assert ka[1..][1..] == ka[2..] && kb[1..][1..] == kb[2..];
  }

  /** Within one release date, set and number, the suffix decides before
      the code does. */
  lemma SuffixBreaksTies(a: VariantEntry, b: VariantEntry)
    requires a.releaseDate == b.releaseDate && a.setId == b.setId && a.setId != []
    requires ParseVariantComponents(a.variantNumber).0 == ParseVariantComponents(b.variantNumber).0
    requires StrLt(ParseVariantComponents(a.variantNumber).1, ParseVariantComponents(b.variantNumber).1)
    ensures KeyLt(VariantSortKey(a), VariantSortKey(b))
  {
    var ka, kb := VariantSortKey(a), VariantSortKey(b);
    StrLtIrreflexive(ParseVariantComponents(a.variantNumber).1);
    assert ka[0] == kb[0] && ka[1] == kb[1] && ka[2] == kb[2] && ka[3] != kb[3];
    assert ka[3..][0] == ka[3] && kb[3..][0] == kb[3];
    assert KeyLt(ka[3..], kb[3..]);
    assert ka[2..][1..] == ka[3..] && kb[2..][1..] == kb[3..];
    assert KeyLt(ka[2..], kb[2..]);
    assert ka[1..][1..] == ka[2..] && kb[1..][1..] == kb[2..];
    assert KeyLt(ka[1..], kb[1..]);
  }

  /** A variant of a known set sorts strictly before a variant of an unknown
      set, whatever their codes. */
  lemma KnownBeforeUnknown(a: VariantEntry, b: VariantEntry)
    requires KnownDate(a.releaseDate) && b.releaseDate == DefaultReleaseDate
    ensures KeyLt(VariantSortKey(a), VariantSortKey(b))
  {
    var ka, kb := VariantSortKey(a), VariantSortKey(b);
    assert a.releaseDate[0] == '2' && b.releaseDate[0] == '9';
    assert StrLt(a.releaseDate, b.releaseDate);
    assert ka[0] != kb[0];
  }

  /** In a list sorted by the variant key, every variant of an unknown set
      comes after every variant of a known set. */
  lemma UnknownAfterKnown(sorted: seq<VariantEntry>)
    requires SortedBy(sorted, VariantSortKey)
    ensures forall i, j :: 0 <= i < |sorted| && 0 <= j < |sorted|
                && sorted[i].releaseDate == DefaultReleaseDate && KnownDate(sorted[j].releaseDate)
                ==> j < i
  {
    forall i, j | 0 <= i < |sorted| && 0 <= j < |sorted|
        && sorted[i].releaseDate == DefaultReleaseDate && KnownDate(sorted[j].releaseDate)
      ensures j < i
    {
      KnownBeforeUnknown(sorted[j], sorted[i]);
    }
  }

  /** After sorting, every variant of an unknown set comes after every variant
      of a known set. */
  lemma UnknownSetsSortLast(entries: seq<VariantEntry>)
    ensures var sorted := SortBy(entries, VariantSortKey);
      forall i, j :: 0 <= i < |sorted| && 0 <= j < |sorted|
        && sorted[i].releaseDate == DefaultReleaseDate && KnownDate(sorted[j].releaseDate)
        ==> j < i
  {
    UnknownAfterKnown(SortBy(entries, VariantSortKey));
  }
}
