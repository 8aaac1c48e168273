/** The variant codes of the standalone simplifier (scripts/cards.py): its
    two regular expressions, the raw variant records it reads, the order
    `sort_variants` puts them in and the choice of a card's normal variant. */
module ScriptCodes {
  import opened Wrappers
  import opened Json
  import opened Text
  import opened Sorting
  import opened VariantCodes
  import opened Lists

  /** `[A-Z]{3}-\d{3}` at the start of `s`. */
  predicate CodeHead(s: string)
  {
    |s| >= 7 && IsUpper(s[0]) && IsUpper(s[1]) && IsUpper(s[2]) && s[3] == '-'
    && IsDigit(s[4]) && IsDigit(s[5]) && IsDigit(s[6])
  }

  /** `(.*)$` on the rest of the text: `.` stops at a line feed, and `$`
      also matches just before a line feed that ends the text. The group is
      the text up to that point. */
  function LineTail(rest: string): (r: Option<string>)
    ensures r.Some? ==> '\n' !in r.value
    ensures '\n' !in rest ==> r == Some(rest)
  {
    if '\n' !in rest then Some(rest)
    else if rest[|rest| - 1] == '\n' && '\n' !in rest[..|rest| - 1] then Some(rest[..|rest| - 1])
    else None
  }

  /** `SET_VARIANT_PATTERN.match(s)`: `^[A-Z]{3}-\d{3}$`. */
  predicate IsSetCode(s: string)
  {
    CodeHead(s) && (|s| == 7 || (|s| == 8 && s[7] == '\n'))
  }

  datatype Parsed = Parsed(prefix: string, number: nat, suffix: string)

  /** `parse_variant_number`: the three letters, the value of the three
      digits and the rest, when `^([A-Z]{3})-(\d{3})(.*)$` matches. */
  function ParseVariantNumber(variantNumber: string): (r: Option<Parsed>)
    ensures r.Some? <==> CodeHead(variantNumber) && LineTail(variantNumber[7..]).Some?
    ensures r.Some? ==>
      && r.value.prefix == variantNumber[..3] && |r.value.prefix| == 3
      && AllDigits(variantNumber[4..7]) && r.value.number == DigitsValue(variantNumber[4..7])
      && r.value.number < 1000
      && 7 + |r.value.suffix| <= |variantNumber| && r.value.suffix == variantNumber[7..7 + |r.value.suffix|]
  {
    if CodeHead(variantNumber) && LineTail(variantNumber[7..]).Some? then
      var digits := variantNumber[4..7];
      ThreeDigits(digits);
      var suffix := LineTail(variantNumber[7..]).value;
      assert variantNumber[7..][..|suffix|] == suffix;
      Some(Parsed(variantNumber[..3], DigitsValue(digits), suffix))
    else None
  }

  /** Three decimal digits are worth less than 1000. */
  lemma ThreeDigits(d: string)
    requires |d| == 3 && AllDigits(d)
    ensures DigitsValue(d) < 1000
  {
    var one, two := d[..1], d[..2];
    assert one[..0] == [] && two[..1] == one && d[..2] == two;
    assert DigitsValue(one) == DigitValue(d[0]) < 10;
    assert DigitsValue(two) == DigitsValue(one) * 10 + DigitValue(d[1]) < 100;
  }

  /** On a code without line feeds, the parse succeeds exactly when the code
      starts with three capitals, a dash and three digits, and the suffix is
      everything after them. */
  lemma ParseSingleLine(variantNumber: string)
    requires '\n' !in variantNumber
    ensures ParseVariantNumber(variantNumber).Some? <==> CodeHead(variantNumber)
    ensures CodeHead(variantNumber) ==> ParseVariantNumber(variantNumber).value.suffix == variantNumber[7..]
  {
    if CodeHead(variantNumber) {
      assert forall c :: c in variantNumber[7..] ==> c in variantNumber;
    }
  }

  /** A set code parses with an empty suffix. */
  lemma SetCodeParses(variantNumber: string)
    requires IsSetCode(variantNumber)
    ensures ParseVariantNumber(variantNumber).Some? && ParseVariantNumber(variantNumber).value.suffix == ""
  {
    if |variantNumber| == 8 {
      assert variantNumber[7..] == "\n";
    }
  }

  /** The two patterns agree: a code is a set code exactly when it parses
      with an empty suffix. */
  lemma SetCodeIffEmptySuffix(variantNumber: string)
    ensures IsSetCode(variantNumber) <==>
      ParseVariantNumber(variantNumber).Some? && ParseVariantNumber(variantNumber).value.suffix == ""
  {
    if IsSetCode(variantNumber) {
      SetCodeParses(variantNumber);
    }
    var p := ParseVariantNumber(variantNumber);
    if p.Some? && p.value.suffix == "" {
      var rest := variantNumber[7..];
      assert LineTail(rest) == Some("");
      if '\n' in rest {
        assert |rest| == 1 && rest[0] == '\n';
      } else {
        assert rest == "";
      }
    }
  }

  /** A raw variant as the simplifier reads it: its code ("" when absent),
      the release date of its set ("" when absent) and its image URL. */
  datatype RawVariant = RawVariant(variantNumber: string, releaseDate: string, imageUrl: Json)

  /** `get_release_date`: the `releaseDate` of the variant's `set` block, or
      "" when either is missing or false. A true `set` that is not a
      dictionary raises; a true date that is not a string is refused (see
      README). */
  function GetReleaseDate(variant: Json): (r: Result<string>)
    requires variant.JObj?
    ensures var setBlock := GetOr(variant, "set", JNull);
      var date := Path(variant, ["set", "releaseDate"]);
      r.Err? <==> (Truthy(setBlock) && !setBlock.JObj?) || (date.Some? && Truthy(date.value) && !date.value.JStr?)
    ensures var date := Path(variant, ["set", "releaseDate"]);
      date.Some? && date.value.JStr? ==> r == Ok(date.value.s)
    ensures var date := Path(variant, ["set", "releaseDate"]);
      r.Ok? && !(date.Some? && date.value.JStr?) ==> r == Ok("")
  {
    var setObj := Or(GetOr(variant, "set", JNull), Empty);
    PathStep(variant, "set", ["releaseDate"]);
    PathStep(setObj, "releaseDate", []);
    if !setObj.JObj? then Err("AttributeError: 'get' on a set that is not a dictionary")
    else
      var date := Or(GetOr(setObj, "releaseDate", JNull), JStr(""));
      if !date.JStr? then Err("TypeError: a release date that is not a string")
      else Ok(date.s)
  }

  /** A variant the simplifier can read: a dictionary whose code, when
      present, is a string and whose release date reads. */
  predicate Readable(variant: Json)
  {
    variant.JObj? && GetOr(variant, "variantNumber", JStr("")).JStr? && GetReleaseDate(variant).Ok?
  }

  /** One raw variant. A record that is not a dictionary has no `get`; a
      code that is not a string makes the regular expression raise. The
      code is "" when absent, the image `""` when absent. */
  function ReadVariant(variant: Json): (r: Result<RawVariant>)
    ensures r.Ok? <==> Readable(variant)
    ensures r.Ok? ==>
      && r.value.variantNumber == GetOr(variant, "variantNumber", JStr("")).s
      && r.value.releaseDate == GetReleaseDate(variant).value
      && r.value.imageUrl == GetOr(variant, "imageUrl", JStr(""))
    ensures r.Ok? && r.value.variantNumber != "" ==> Lookup(variant, "variantNumber") == Some(JStr(r.value.variantNumber))
  {
    if !variant.JObj? then Err("AttributeError: a variant that is not a dictionary")
    else
      var code := GetOr(variant, "variantNumber", JStr(""));
      if !code.JStr? then Err("TypeError: a variant number that is not a string")
      else
        var date :- GetReleaseDate(variant);
        Ok(RawVariant(code.s, date, GetOr(variant, "imageUrl", JStr(""))))
  }

  /** The card's `cardVariants`, nothing when it is missing or false, read
      variant by variant. A
      non-empty value that is not a list cannot be iterated as records. */
  function ReadVariants(card: Json): (r: Result<seq<RawVariant>>)
    requires card.JObj?
    ensures var raw := GetOr(card, "cardVariants", JArr([]));
      && (!Truthy(raw) ==> r == Ok([]))
      && (Truthy(raw) && !raw.JArr? ==> r.Err?)
      && (raw.JArr? ==> r == ReadAll(raw.items))
  {
    var raw := Or(GetOr(card, "cardVariants", JArr([])), JArr([]));
    if !raw.JArr? then Err("a cardVariants value that is not a list")
    else ReadAll(raw.items)
  }

  /** Every variant reads in order; the first that does not fails all. */
  function ReadAll(items: seq<Json>): (r: Result<seq<RawVariant>>)
    ensures r.Ok? <==> forall i :: 0 <= i < |items| ==> Readable(items[i])
    ensures r.Ok? ==> |r.value| == |items|
    ensures r.Ok? ==> forall i :: 0 <= i < |items| ==> ReadVariant(items[i]) == Ok(r.value[i])
  {
    if items == [] then Ok([])
    else
      ReadableShift(items, ReadVariant);
      var first :- ReadVariant(items[0]);
      var rest :- ReadAll(items[1..]);
      ReadAllCons(items, ReadVariant, first, rest);
      Ok([first] + rest)
  }

  /** The two shift facts below are stated for any reader `f`, so that the
      reader's own contract stays out of the proof. */
  lemma ReadableShift<A, B>(items: seq<A>, f: A -> Result<B>)
    requires items != []
    ensures (forall i :: 0 <= i < |items| ==> f(items[i]).Ok?)
        <==> f(items[0]).Ok? && forall i :: 0 <= i < |items[1..]| ==> f(items[1..][i]).Ok?
  {
    assert forall i :: 0 < i < |items| ==> items[i] == items[1..][i - 1];
  }

  lemma ReadAllCons<A, B>(items: seq<A>, f: A -> Result<B>, first: B, rest: seq<B>)
    requires items != [] && f(items[0]) == Ok(first) && |rest| == |items| - 1
    requires forall i :: 0 <= i < |rest| ==> f(items[1..][i]) == Ok(rest[i])
    ensures forall i :: 0 <= i < |items| ==> f(items[i]) == Ok(([first] + rest)[i])
  {
    assert forall i :: 0 < i < |items| ==> items[i] == items[1..][i - 1];
  }

  /** The key of `sort_variants`: date, number, suffix, code; a code that does
      not parse sorts by number 999999 and by itself as suffix. */
  function SortKey(v: RawVariant): Key
  {
    match ParseVariantNumber(v.variantNumber)
    case Some(p) => [S(v.releaseDate), N(p.number), S(p.suffix), S(v.variantNumber)]
    case None => [S(v.releaseDate), N(999999), S(v.variantNumber), S(v.variantNumber)]
  }

  /** The parts of the key, in order: the release date, the parsed number
      (999999 when the code does not parse), the parsed suffix (the code
      itself when it does not parse) and the code. */
  lemma SortKeyParts(v: RawVariant)
    ensures |SortKey(v)| == 4 && SortKey(v)[0] == S(v.releaseDate) && SortKey(v)[3] == S(v.variantNumber)
    ensures ParseVariantNumber(v.variantNumber).Some? ==>
      && SortKey(v)[1] == N(ParseVariantNumber(v.variantNumber).value.number)
      && SortKey(v)[2] == S(ParseVariantNumber(v.variantNumber).value.suffix)
    ensures ParseVariantNumber(v.variantNumber).None? ==>
      SortKey(v)[1] == N(999999) && SortKey(v)[2] == S(v.variantNumber)
  {
  }

  /** On one release date, a code that parses sorts before one that does
      not: three digits stay below 999999. */
  lemma ParsedBeforeUnparsed(a: RawVariant, b: RawVariant)
    requires a.releaseDate == b.releaseDate
    requires ParseVariantNumber(a.variantNumber).Some? && ParseVariantNumber(b.variantNumber).None?
    ensures KeyLt(SortKey(a), SortKey(b))
  {
    var ka, kb := SortKey(a), SortKey(b);
    assert ka[0] == kb[0];
    assert ka[1] != kb[1] && PartLt(ka[1], kb[1]);
    assert KeyLt(ka[1..], kb[1..]);
  }

  /** On one release date, a smaller parsed number sorts first. */
  lemma SmallerParsedNumberFirst(a: RawVariant, b: RawVariant)
    requires a.releaseDate == b.releaseDate
    requires ParseVariantNumber(a.variantNumber).Some? && ParseVariantNumber(b.variantNumber).Some?
    requires ParseVariantNumber(a.variantNumber).value.number < ParseVariantNumber(b.variantNumber).value.number
    ensures KeyLt(SortKey(a), SortKey(b))
  {
    var ka, kb := SortKey(a), SortKey(b);
    assert ka[0] == kb[0];
    assert ka[1] != kb[1] && PartLt(ka[1], kb[1]);
    assert KeyLt(ka[1..], kb[1..]);
  }

  /** The variants with a non-empty code, in order. */
  function Present(vs: seq<RawVariant>): (r: seq<RawVariant>)
    ensures |r| <= |vs|
    ensures forall x :: x in r ==> x in vs && x.variantNumber != ""
  {
    if vs == [] then []
    else (if vs[0].variantNumber != "" then [vs[0]] else []) + Present(vs[1..])
  }

  function NormCodes(vs: seq<RawVariant>): (r: seq<string>)
    ensures |r| == |vs|
    ensures forall i :: 0 <= i < |vs| ==> r[i] == NormalizeVariantNumber(vs[i].variantNumber)
  {
    seq(|vs|, i requires 0 <= i < |vs| => NormalizeVariantNumber(vs[i].variantNumber))
  }

  /** `sort_variants`: the normalised codes of the variants that have one,
      in key order. */
  function SortVariants(vs: seq<RawVariant>): seq<string>
  {
    NormCodes(Present(SortBy(vs, SortKey)))
  }

  lemma {:induction false} PresentSorted(s: seq<RawVariant>, key: RawVariant -> Key)
    requires SortedBy(s, key)
    ensures SortedBy(Present(s), key)
  {
    if s != [] {
      PresentSorted(s[1..], key);
      var rest := Present(s[1..]);
      if s[0].variantNumber != "" {
        forall y | y in rest ensures KeyLe(key(s[0]), key(y)) {
          var m :| 0 <= m < |s[1..]| && s[1..][m] == y;
          assert s[m + 1] == y;
        }
        SortedPrepend(s[0], rest, key);
      } else {
        assert Present(s) == rest;
      }
    }
  }

  /** An element whose key is at most every key of a sorted list can go in
      front of it. */
  lemma SortedPrepend<T>(x: T, rest: seq<T>, key: T -> Key)
    requires SortedBy(rest, key) && forall y :: y in rest ==> KeyLe(key(x), key(y))
    ensures SortedBy([x] + rest, key)
  {
    var r := [x] + rest;
    forall i, j | 0 <= i < j < |r| ensures KeyLe(key(r[i]), key(r[j])) {
      assert r[j] == rest[j - 1];
      if i > 0 { assert r[i] == rest[i - 1]; }
    }
  }

  /** How often a variant occurs among the present ones: as often as in the
      input when it has a code, never otherwise. */
  lemma {:induction false} PresentCount(s: seq<RawVariant>, x: RawVariant)
    ensures multiset(Present(s))[x] == if x.variantNumber != "" then multiset(s)[x] else 0
  {
    if s != [] {
      PresentCount(s[1..], x);
      var head := if s[0].variantNumber != "" then [s[0]] else [];
      assert s == [s[0]] + s[1..];
      assert multiset(s) == multiset{s[0]} + multiset(s[1..]);
      assert Present(s) == head + Present(s[1..]);
      assert multiset(Present(s)) == multiset(head) + multiset(Present(s[1..]));
    }
  }

  lemma PresentPermutation(a: seq<RawVariant>, b: seq<RawVariant>)
    requires multiset(a) == multiset(b)
    ensures multiset(Present(a)) == multiset(Present(b))
  {
    forall x ensures multiset(Present(a))[x] == multiset(Present(b))[x] {
      PresentCount(a, x);
      PresentCount(b, x);
    }
  }

  /** `sort_variants` returns the normalised codes of an arrangement, in key
      order, of exactly the variants that have a code: no variant lost, none
      added, none merged. */
  lemma SortVariantsSpec(vs: seq<RawVariant>)
    ensures |SortVariants(vs)| == |Present(vs)| <= |vs|
    ensures exists w :: SortedBy(w, SortKey) && multiset(w) == multiset(Present(vs)) && SortVariants(vs) == NormCodes(w)
    ensures forall c :: c in SortVariants(vs) ==> c != ""
  {
    var sorted := SortBy(vs, SortKey);
    var w := Present(sorted);
    PresentSorted(sorted, SortKey);
    PresentPermutation(sorted, vs);
    assert |w| == |multiset(w)| == |multiset(Present(vs))| == |Present(vs)|;
    forall c | c in SortVariants(vs) ensures c != "" {
      var i :| 0 <= i < |w| && NormCodes(w)[i] == c;
      assert w[i] in w;
    }
  }

  /** Every variant with a code contributes its normalised code. */
  lemma SortVariantsHas(vs: seq<RawVariant>, v: RawVariant)
    requires v in vs && v.variantNumber != ""
    ensures NormalizeVariantNumber(v.variantNumber) in SortVariants(vs)
  {
    PresentHas(SortBy(vs, SortKey), vs, v);
  }

  /** A variant with a code in any arrangement of `vs` contributes its
      normalised code. */
  lemma PresentHas(sorted: seq<RawVariant>, vs: seq<RawVariant>, v: RawVariant)
    requires multiset(sorted) == multiset(vs)
    requires v in vs && v.variantNumber != ""
    ensures NormalizeVariantNumber(v.variantNumber) in NormCodes(Present(sorted))
  {
    PresentPermutation(sorted, vs);
    PresentCount(vs, v);
    var w := Present(sorted);
    assert v in multiset(w);
    var i := FirstIndex(w, v);
    assert NormCodes(w)[i] == NormalizeVariantNumber(v.variantNumber);
  }

  /** The key of `get_normal_variant_number`: date, then number. */
  function NormalKey(v: RawVariant): Key
  {
    match ParseVariantNumber(v.variantNumber)
    case Some(p) => [S(v.releaseDate), N(p.number)]
    case None => [S(v.releaseDate), N(999999)]
  }

  /** The key of `get_normal_variant_number` is the first two parts of the
      key of `sort_variants`: date and number. */
  lemma NormalKeyIsSortKeyPrefix(v: RawVariant)
    ensures NormalKey(v) == SortKey(v)[..2]
  {
  }

  /** The variants whose code is a set code with no suffix, in order. */
  function Matching(vs: seq<RawVariant>): (r: seq<RawVariant>)
    ensures forall x :: x in r <==> x in vs && IsSetCode(x.variantNumber)
  {
    if vs == [] then []
    else
      var rest := Matching(vs[1..]);
      assert forall x :: x in vs <==> x == vs[0] || x in vs[1..];
      (if IsSetCode(vs[0].variantNumber) then [vs[0]] else []) + rest
  }

  /** One more variant at the end adds itself when its code is a set code. */
  lemma {:induction false} MatchingSnoc(vs: seq<RawVariant>, v: RawVariant)
    ensures Matching(vs + [v]) == Matching(vs) + (if IsSetCode(v.variantNumber) then [v] else [])
  {
    if vs == [] {
      assert [v][1..] == [];
    } else {
      assert (vs + [v])[0] == vs[0] && (vs + [v])[1..] == vs[1..] + [v];
      MatchingSnoc(vs[1..], v);
    }
  }

  /** What `get_normal_variant_number` returns. */
  function NormalVariant(vs: seq<RawVariant>): Option<string>
  {
    var m := Matching(vs);
    if m == [] then None else Some(SortBy(m, NormalKey)[0].variantNumber)
  }

  /** `get_normal_variant_number`: collect the variants with a set code,
      sort them stably by date and number and take the first one's code. */
  method GetNormalVariantNumber(vs: seq<RawVariant>) returns (r: Option<string>)
    ensures r == NormalVariant(vs)
  {
    var matching: seq<RawVariant> := [];
    for i := 0 to |vs|
      invariant matching == Matching(vs[..i])
    {
      assert vs[..i + 1] == vs[..i] + [vs[i]];
      MatchingSnoc(vs[..i], vs[i]);
      if IsSetCode(vs[i].variantNumber) {
        matching := matching + [vs[i]];
      }
    }
    assert vs[..|vs|] == vs;
    if matching == [] {
      return None;
    }
    var sorted := SortBy(matching, NormalKey);
    r := Some(sorted[0].variantNumber);
  }

  /** There is no normal variant exactly when no code is a set code. */
  lemma NormalVariantNone(vs: seq<RawVariant>)
    ensures NormalVariant(vs).None? <==> forall i :: 0 <= i < |vs| ==> !IsSetCode(vs[i].variantNumber)
  {
    if Matching(vs) == [] {
      forall i | 0 <= i < |vs| ensures !IsSetCode(vs[i].variantNumber) {
        assert vs[i] in vs;
      }
    } else {
      assert Matching(vs)[0] in Matching(vs);
    }
  }

  /** The normal variant is the code of a variant with a set code whose date
      and number are least, the earliest such variant in input order: `i` is
      its position among those variants. */
  lemma NormalVariantLeast(vs: seq<RawVariant>) returns (i: nat)
    requires NormalVariant(vs).Some?
    ensures i < |Matching(vs)| && Matching(vs)[i].variantNumber == NormalVariant(vs).value
    ensures Matching(vs)[i] in vs && IsSetCode(NormalVariant(vs).value)
    ensures forall j :: 0 <= j < |vs| && IsSetCode(vs[j].variantNumber) ==>
      KeyLe(NormalKey(Matching(vs)[i]), NormalKey(vs[j]))
    ensures forall j :: 0 <= j < i ==> KeyLt(NormalKey(Matching(vs)[i]), NormalKey(Matching(vs)[j]))
  {
    var m := Matching(vs);
    var keep := (v: RawVariant) => IsSetCode(v.variantNumber);
    assert forall x :: x in m <==> x in vs && keep(x);
    i := FilterHead(vs, m, keep, NormalKey);
    assert forall j :: 0 <= j < |vs| && IsSetCode(vs[j].variantNumber) ==> keep(vs[j]);
  }

  /** The head of the stable sort of the elements of `vs` that `keep`
      selects, found in `m`: its key is least among them, and every element
      before it in `m` has a greater key. */
  lemma FilterHead<T>(vs: seq<T>, m: seq<T>, keep: T -> bool, key: T -> Key) returns (i: nat)
    requires m != [] && forall x :: x in m <==> x in vs && keep(x)
    ensures i < |m| && m[i] == SortBy(m, key)[0] && m[i] in vs && keep(m[i])
    ensures forall j :: 0 <= j < |vs| && keep(vs[j]) ==> KeyLe(key(m[i]), key(vs[j]))
    ensures forall j :: 0 <= j < i ==> KeyLt(key(m[i]), key(m[j]))
  {
    i := StableHead(m, key);
    assert m[i] in m;
    forall j | 0 <= j < |vs| && keep(vs[j]) ensures KeyLe(key(m[i]), key(vs[j])) {
      assert vs[j] in vs;
    }
  }

  /** The position in `m` of the head of its stable sort: its key is least,
      and every element before it has a greater key. */
  lemma StableHead<T>(m: seq<T>, key: T -> Key) returns (i: nat)
    requires m != []
    ensures i < |m| && m[i] == SortBy(m, key)[0]
    ensures forall x :: x in m ==> KeyLe(key(m[i]), key(x))
    ensures forall j :: 0 <= j < i ==> KeyLt(key(m[i]), key(m[j]))
  {
    SortHead(m, key);
    var h := SortBy(m, key)[0];
    i :| 0 <= i < |m| && m[i] == h && forall j :: 0 <= j < i ==> KeyLt(key(h), key(m[j]));
    forall x | x in m ensures KeyLe(key(h), key(x)) {
      var k :| 0 <= k < |m| && m[k] == x;
    }
  }

  /** The normal variant's code, normalised, is always among the sorted
      codes: the fallback search of `simplify_card` for a normal code missing
      from that list never runs. */
  lemma NormalListed(vs: seq<RawVariant>)
    requires NormalVariant(vs).Some?
    ensures NormalVariant(vs).value != ""
    ensures NormalizeVariantNumber(NormalVariant(vs).value) in SortVariants(vs)
  {
    var i := NormalVariantLeast(vs);
    SortVariantsHas(vs, Matching(vs)[i]);
  }
}
