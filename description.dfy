/** Translation of the symbol placeholders in a card's rules text
    (`translate_description_tokens` in worker/official.py). The text is what
    the HTML-to-text step produced; that step itself is not modelled. */
module Description {
  import opened Wrappers
  import opened Text

  const RuneTypes: set<string> := {"order", "chaos", "fury", "mind", "calm", "body", "rainbow"}

  const EnergyPrefix: string := ":rb_energy_"
  const RunePrefix: string := ":rb_rune_"
  const ExhaustToken: string := ":rb_exhaust:"
  const MightToken: string := ":rb_might:"

  /** The longest prefix of `s` made of digits. */
  function LeadingDigits(s: string): (r: string)
    ensures |r| <= |s| && r == s[..|r|] && AllDigits(r)
    ensures |r| < |s| ==> !IsDigit(s[|r|])
  {
    if s != [] && IsDigit(s[0]) then [s[0]] + LeadingDigits(s[1..]) else []
  }

  /** The longest prefix of `s` made of ASCII letters. */
  function LeadingLetters(s: string): (r: string)
    ensures |r| <= |s| && r == s[..|r|]
    ensures forall i :: 0 <= i < |r| ==> IsAlpha(r[i])
    ensures |r| < |s| ==> !IsAlpha(s[|r|])
  {
    if s != [] && IsAlpha(s[0]) then [s[0]] + LeadingLetters(s[1..]) else []
  }

  /** A match of `:rb_energy_(\d+):` at the start of `t`: its length and digits. */
  function EnergyMatch(t: string): (m: Option<(nat, string)>)
    ensures m.Some? ==> 0 < m.value.0 <= |t| && m.value.1 != [] && AllDigits(m.value.1)
  {
    if StartsWith(t, EnergyPrefix) then
      var rest := t[|EnergyPrefix|..];
      var d := LeadingDigits(rest);
      if d != [] && |d| < |rest| && rest[|d|] == ':' then Some((|EnergyPrefix| + |d| + 1, d)) else None
    else None
  }

  /** A match of `:rb_rune_([a-zA-Z]+):` at the start of `t`: its length and name. */
  function RuneMatch(t: string): (m: Option<(nat, string)>)
    ensures m.Some? ==> 0 < m.value.0 <= |t| && m.value.1 != []
  {
    if StartsWith(t, RunePrefix) then
      var rest := t[|RunePrefix|..];
      var name := LeadingLetters(rest);
      if name != [] && |name| < |rest| && rest[|name|] == ':' then Some((|RunePrefix| + |name| + 1, name)) else None
    else None
  }

  /** `re.sub(r":rb_energy_(\d+):", ...)`: each match becomes the bracketed
      value of its digits; scanning resumes after the match. */
  function EnergyPass(t: string): string
    decreases |t|
  {
    if t == [] then []
    else match EnergyMatch(t)
      case Some((len, d)) => "[" + NatToString(DigitsValue(d)) + "]" + EnergyPass(t[len..])
      case None => [t[0]] + EnergyPass(t[1..])
  }

  /** The replacement `rune_replacer` returns for one rune match. */
  function RuneReplacement(name: string, matched: string): string
  {
    var lowered := Lower(name);
    if lowered in RuneTypes then "[" + Capitalize(lowered) + "]" else matched
  }

  /** `re.sub(r":rb_rune_([a-zA-Z]+):", rune_replacer, ...)`: an unknown rune
      is kept as it was, and scanning still resumes after it. */
  function RunePass(t: string): string
    decreases |t|
  {
    if t == [] then []
    else match RuneMatch(t)
      case Some((len, name)) => RuneReplacement(name, t[..len]) + RunePass(t[len..])
      case None => [t[0]] + RunePass(t[1..])
  }

  /** `translate_description_tokens`: energy placeholders, then runes, then
      the fixed tokens in table order. */
  function TranslateDescriptionTokens(text: string): string
  {
    var t := RunePass(EnergyPass(text));
    var t := ReplaceAll(t, ExhaustToken, "[Exhaust]");
    ReplaceAll(t, MightToken, "[Might]")
  }

  /** An energy placeholder becomes its number in brackets, leading zeros
      dropped, and the rest of the text is translated on its own. */
  lemma EnergyToken(d: string, rest: string)
    requires d != [] && AllDigits(d)
    ensures EnergyPass(EnergyPrefix + d + ":" + rest)
         == "[" + NatToString(DigitsValue(d)) + "]" + EnergyPass(rest)
  {
    var t := EnergyPrefix + d + ":" + rest;
    assert t[..|EnergyPrefix|] == EnergyPrefix;
    var tail := t[|EnergyPrefix|..];
    assert tail == d + ":" + rest;
    LeadingDigitsStop(d, ":" + rest);
    assert tail == d + (":" + rest);
    assert t[|EnergyPrefix| + |d| + 1..] == rest;
  }

  lemma {:induction false} LeadingDigitsStop(d: string, rest: string)
    requires AllDigits(d) && rest != [] && !IsDigit(rest[0])
    ensures LeadingDigits(d + rest) == d
  {
    if d == [] {
      assert d + rest == rest;
    } else {
      assert (d + rest)[1..] == d[1..] + rest;
      LeadingDigitsStop(d[1..], rest);
    }
  }

  lemma {:induction false} LeadingLettersStop(name: string, rest: string)
    requires forall i :: 0 <= i < |name| ==> IsAlpha(name[i])
    requires rest != [] && !IsAlpha(rest[0])
    ensures LeadingLetters(name + rest) == name
  {
    if name == [] {
      assert name + rest == rest;
    } else {
      assert (name + rest)[1..] == name[1..] + rest;
      LeadingLettersStop(name[1..], rest);
    }
  }

  /** A rune placeholder becomes the capitalised rune in brackets when its
      lower-cased name is one of the seven rune types, and is left exactly as
      it was otherwise. */
  lemma RuneToken(name: string, rest: string)
    requires name != [] && forall i :: 0 <= i < |name| ==> IsAlpha(name[i])
    ensures RunePass(RunePrefix + name + ":" + rest)
         == (if Lower(name) in RuneTypes then "[" + Capitalize(Lower(name)) + "]"
             else RunePrefix + name + ":")
            + RunePass(rest)
  {
    var t := RunePrefix + name + ":" + rest;
    assert t[..|RunePrefix|] == RunePrefix;
    var tail := t[|RunePrefix|..];
    assert tail == name + (":" + rest);
    LeadingLettersStop(name, ":" + rest);
    assert t[..|RunePrefix| + |name| + 1] == RunePrefix + name + ":";
    assert t[|RunePrefix| + |name| + 1..] == rest;
  }

  /** A character other than `:` starts no placeholder: both passes copy it
      and go on with the next one. */
  lemma PlainStep(t: string)
    requires t != [] && t[0] != ':'
    ensures EnergyPass(t) == [t[0]] + EnergyPass(t[1..])
    ensures RunePass(t) == [t[0]] + RunePass(t[1..])
  {
    if |EnergyPrefix| <= |t| { assert t[..|EnergyPrefix|][0] == t[0]; }
    if |RunePrefix| <= |t| { assert t[..|RunePrefix|][0] == t[0]; }
  }

  /** A pass that copies every character other than `:` and goes on with
      the next one copies text without `:` ahead of anything else. */
  lemma {:induction false} CopiesPlain(pass: string -> string, p: string, r: string)
    requires forall t :: t != [] && t[0] != ':' ==> pass(t) == [t[0]] + pass(t[1..])
    requires !Contains(p, ':')
    ensures pass(p + r) == p + pass(r)
    decreases |p|
  {
    if p == [] {
      assert p + r == r;
    } else {
      var s := p + r;
      NoColonTail(p);
      assert s[0] == p[0];
      assert s[1..] == p[1..] + r;
      CopiesPlain(pass, p[1..], r);
      assert [p[0]] + p[1..] == p;
    }
  }

  /** Text before the first `:` is never touched by the energy pass. */
  lemma EnergyPassPlain(p: string, r: string)
    requires !Contains(p, ':')
    ensures EnergyPass(p + r) == p + EnergyPass(r)
  {
    forall t | t != [] && t[0] != ':' ensures EnergyPass(t) == [t[0]] + EnergyPass(t[1..]) {
      PlainStep(t);
    }
    CopiesPlain(EnergyPass, p, r);
  }

  /** Text before the first `:` is never touched by the rune pass. */
  lemma RunePassPlain(p: string, r: string)
    requires !Contains(p, ':')
    ensures RunePass(p + r) == p + RunePass(r)
  {
    forall t | t != [] && t[0] != ':' ensures RunePass(t) == [t[0]] + RunePass(t[1..]) {
      PlainStep(t);
    }
    CopiesPlain(RunePass, p, r);
  }

  /** Text before the first `:` is never touched by a replacement of a token
      that starts with `:`. */
  lemma {:induction false} ReplacePlain(p: string, r: string, token: string, replacement: string)
    requires token != [] && token[0] == ':' && !Contains(p, ':')
    ensures ReplaceAll(p + r, token, replacement) == p + ReplaceAll(r, token, replacement)
    decreases |p|
  {
    if p == [] {
      assert p + r == r;
    } else if |p + r| < |token| {
      assert ReplaceAll(r, token, replacement) == r;
    } else {
      var s := p + r;
      assert s[..|token|][0] == p[0] != ':';
      assert s[1..] == p[1..] + r;
      assert ReplaceAll(s, token, replacement) == [p[0]] + ReplaceAll(s[1..], token, replacement);
      NoColonTail(p);
      ReplacePlain(p[1..], r, token, replacement);
      assert p == [p[0]] + p[1..];
    }
  }

  lemma NoColonTail(p: string)
    requires p != [] && !Contains(p, ':')
    ensures p[0] != ':' && !Contains(p[1..], ':')
  {
    forall i | 0 <= i < |p[1..]| ensures p[1..][i] != ':' { assert p[1..][i] == p[i + 1]; }
  }

  /** Plain text ahead of any placeholder passes through the whole
      translation unchanged; in particular text without `:` is returned as is. */
  lemma TranslatePlainPrefix(p: string, r: string)
    requires !Contains(p, ':')
    ensures TranslateDescriptionTokens(p + r) == p + TranslateDescriptionTokens(r)
  {
    EnergyPassPlain(p, r);
    RunePassPlain(p, EnergyPass(r));
    var t := RunePass(EnergyPass(r));
    ReplacePlain(p, t, ExhaustToken, "[Exhaust]");
    ReplacePlain(p, ReplaceAll(t, ExhaustToken, "[Exhaust]"), MightToken, "[Might]");
  }

  lemma TranslatePlain(text: string)
    requires !Contains(text, ':')
    ensures TranslateDescriptionTokens(text) == text
  {
    TranslatePlainPrefix(text, []);
    assert text + [] == text;
  }

  /** A lone `:` followed by plain text is left alone by every pass. */
  lemma ColonPlain(q: string)
    requires !Contains(q, ':')
    ensures EnergyPass(":" + q) == ":" + q
    ensures RunePass(":" + q) == ":" + q
  {
    var t := ":" + q;
    assert t[1..] == q;
    EnergyPassPlain(q, []);
    RunePassPlain(q, []);
    assert q + [] == q;
  }

  /** A replacement of a `:`-delimited token leaves a lone `:` followed by
      plain text alone. */
  lemma ColonReplace(q: string, token: string, replacement: string)
    requires !Contains(q, ':') && |token| >= 2 && token[0] == ':' && token[|token| - 1] == ':'
    ensures ReplaceAll(":" + q, token, replacement) == ":" + q
  {
    var t := ":" + q;
    if |t| >= |token| {
      assert t[|token| - 1] == q[|token| - 2] != ':';
      assert t[1..] == q;
      ReplacePlain(q, [], token, replacement);
      assert q + [] == q;
    }
  }

  /** The words of the fixed tokens and the `[Exhaust]` replacement hold
      no `:`. */
  lemma LiteralsPlain()
    ensures !Contains("rb_exhaust", ':') && !Contains("rb_might", ':') && !Contains("[Exhaust]", ':')
  {
    var a, b, c := "rb_exhaust", "rb_might", "[Exhaust]";
    forall i | 0 <= i < |a| ensures a[i] != ':' {}
    forall i | 0 <= i < |b| ensures b[i] != ':' {}
    forall i | 0 <= i < |c| ensures c[i] != ':' {}
  }

  /** Text without `:` joined to text without `:` has none either. */
  lemma NoColonJoin(a: string, b: string)
    requires !Contains(a, ':') && !Contains(b, ':')
    ensures !Contains(a + b, ':')
  {
    forall i | 0 <= i < |a + b| ensures (a + b)[i] != ':' {
      if i >= |a| { assert (a + b)[i] == b[i - |a|]; }
    }
  }

  /** A fixed token `:word:` followed by plain text, which no placeholder
      pattern matches at its start, goes through both passes unchanged. */
  lemma FixedTokenSurvives(word: string, q: string)
    requires !Contains(word, ':') && !Contains(q, ':')
    requires !StartsWith(":" + word + ":" + q, EnergyPrefix)
    requires !StartsWith(":" + word + ":" + q, RunePrefix)
    ensures EnergyPass(":" + word + ":" + q) == ":" + word + ":" + q
    ensures RunePass(":" + word + ":" + q) == ":" + word + ":" + q
  {
    var t, rest := ":" + word + ":" + q, word + (":" + q);
    DropFirst(":", word, ":", q);
    UnmatchedStep(t);
    ColonPlain(q);
    EnergyPassPlain(word, ":" + q);
    RunePassPlain(word, ":" + q);
  }

  lemma DropFirst<T>(a: seq<T>, b: seq<T>, c: seq<T>, d: seq<T>)
    requires |a| == 1
    ensures (a + b + c + d)[1..] == b + (c + d)
    ensures a + b + c + d == a + (b + (c + d))
  {
  }

  /** Where no placeholder pattern matches, both passes copy the first
      character and go on with the next one. */
  lemma UnmatchedStep(t: string)
    requires t != [] && !StartsWith(t, EnergyPrefix) && !StartsWith(t, RunePrefix)
    ensures EnergyPass(t) == [t[0]] + EnergyPass(t[1..])
    ensures RunePass(t) == [t[0]] + RunePass(t[1..])
  {
  }

  /** A token at the very front of plain text is replaced, and the rest is
      kept. */
  lemma ReplaceAtFront(token: string, q: string, replacement: string)
    requires token != [] && token[0] == ':' && !Contains(q, ':')
    ensures ReplaceAll(token + q, token, replacement) == replacement + q
  {
    var t := token + q;
    assert t[..|token|] == token && t[|token|..] == q;
    ReplacePlain(q, [], token, replacement);
    assert q + [] == q;
  }

  /** `:rb_exhaust:` becomes `[Exhaust]`: the energy and rune passes leave
      it untouched, and the fixed replacements run last. */
  lemma ExhaustPasses(q: string)
    requires !Contains(q, ':')
    ensures TranslateDescriptionTokens(ExhaustToken + q) == "[Exhaust]" + q
  {
    var t := ExhaustToken + q;
    var word := "rb_exhaust";
    assert t == ":" + word + ":" + q;
    LiteralsPlain();
    assert t[5] != EnergyPrefix[5] && t[4] != RunePrefix[4];
    FixedTokenSurvives(word, q);
    ReplaceAtFront(ExhaustToken, q, "[Exhaust]");
    var r := "[Exhaust]" + q;
    LiteralsPlain();
    NoColonJoin("[Exhaust]", q);
    ReplacePlain(r, [], MightToken, "[Might]");
    assert r + [] == r;
  }

  /** `:rb_might:` becomes `[Might]`, past the `:rb_exhaust:` replacement
      that runs before it. */
  lemma MightPasses(q: string)
    requires !Contains(q, ':')
    ensures TranslateDescriptionTokens(MightToken + q) == "[Might]" + q
  {
    var t := MightToken + q;
    var word := "rb_might";
    assert t == ":" + word + ":" + q;
    LiteralsPlain();
    assert t[4] != EnergyPrefix[4] && t[4] != RunePrefix[4];
    FixedTokenSurvives(word, q);
    MightSkipsExhaust(q);
    ReplaceAtFront(MightToken, q, "[Might]");
  }

  /** The `:rb_exhaust:` replacement leaves `:rb_might:` and the plain text
      after it alone. */
  lemma MightSkipsExhaust(q: string)
    requires !Contains(q, ':')
    ensures ReplaceAll(MightToken + q, ExhaustToken, "[Exhaust]") == MightToken + q
  {
    var t := MightToken + q;
    var word := "rb_might";
    if |t| >= |ExhaustToken| {
      assert t[..|ExhaustToken|][4] != ExhaustToken[4];
    }
    assert t[1..] == word + (":" + q);
    LiteralsPlain();
    ReplacePlain(word, ":" + q, ExhaustToken, "[Exhaust]");
    ColonReplace(q, ExhaustToken, "[Exhaust]");
    assert t == [':'] + (word + (":" + q));
  }
}
