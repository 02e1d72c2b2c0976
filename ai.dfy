/** The extractor of src/lib/ai.ts: the provider's parsed reply when the call
    succeeds, otherwise a deterministic parse of the raw text (amount pattern,
    income keywords, first matching category, text kept as description). */
module Ai {
  import opened Types
  import opened JsString

  /** `AIModel`: 'openai' | 'gemini'. */
  datatype AIModel = OpenAI | Gemini

  datatype AISettings = AISettings(model: AIModel, apiKey: string)

  /** Whatever `JSON.parse` made of a provider's reply. It is returned without
      any check of its shape, so the model keeps it opaque. */
  datatype ProviderObject = ProviderObject(json: string)

  /** The object the fallback builds; `amount` in cents. */
  datatype Fields = Fields(amount: nat, category: string, kind: Kind, description: string)

  /** What `parseTransactionWithAI` resolves to. */
  datatype Extraction = FromProvider(obj: ProviderObject) | FromFallback(fields: Fields)

  const IncomeKeywords: seq<string> := ["earned", "received", "salary"]
  const Categories: seq<string> := ["groceries", "rent", "salary", "food", "transport", "entertainment"]
  const OtherCategory: string := "other"

  /** `parseTransactionWithAI(text, settings)`, where `reply` is the outcome of
      the one call to the provider `settings.model` names: `Some` when the call
      and `JSON.parse` succeeded, `None` when anything in them threw. There is
      no retry, and the fallback cannot fail. */
  function ParseTransaction(text: string, settings: AISettings, reply: Option<ProviderObject>): (r: Extraction)
    ensures r.FromFallback? <==> reply.None?
    ensures r.FromProvider? ==> reply == Some(r.obj)
    ensures r.FromFallback? ==> r.fields == Fallback(text)
  {
    match reply
    case Some(obj) => FromProvider(obj)
    case None => FromFallback(Fallback(text))
  }

  /** The catch branch: amount, type, category and description from the text alone. */
  function Fallback(text: string): (r: Fields)
    ensures r.description == text
  {
    var lower := ToLower(text);
    Fields(FallbackAmount(text), FallbackCategory(lower), if IsIncome(lower) then Income else Expense, text)
  }

  // ---------------------------------------------------------------------------
  // Type and category: keyword tests on the lowercased text
  // ---------------------------------------------------------------------------

  /** `isIncome`: the lowercased text contains "earned", "received" or "salary". */
  predicate IsIncome(lower: string) {
    Includes(lower, "earned") || Includes(lower, "received") || Includes(lower, "salary")
  }

  /** `labels.find(cat => lower.includes(cat))`. */
  function FindLabel(labels: seq<string>, lower: string): Option<string> {
    if labels == [] then None
    else if Includes(lower, labels[0]) then Some(labels[0])
    else FindLabel(labels[1..], lower)
  }

  /** The search yields the first label, in list order, that occurs in
      `lower`, and nothing exactly when no label occurs. */
  lemma {:induction false} FindLabelIsFirst(labels: seq<string>, lower: string)
    ensures FindLabel(labels, lower).None? <==> forall j :: 0 <= j < |labels| ==> !Includes(lower, labels[j])
    ensures FindLabel(labels, lower).Some? ==>
              exists k :: 0 <= k < |labels| && FindLabel(labels, lower).value == labels[k]
                          && Includes(lower, labels[k]) && forall j :: 0 <= j < k ==> !Includes(lower, labels[j])
  {
    if labels != [] && !Includes(lower, labels[0]) {
      var rest := labels[1..];
      FindLabelIsFirst(rest, lower);
      forall j | 0 < j < |labels| ensures labels[j] == rest[j - 1] { }
      if FindLabel(rest, lower).Some? {
        var k :| 0 <= k < |rest| && FindLabel(rest, lower).value == rest[k]
                 && Includes(lower, rest[k]) && forall j :: 0 <= j < k ==> !Includes(lower, rest[j]);
        assert forall j :: 0 <= j < k + 1 ==> !Includes(lower, labels[j]);
      }
    } else if labels != [] {
      assert FindLabel(labels, lower).value == labels[0];
    }
  }

  /** `categories.find(...) || 'other'`. */
  function FallbackCategory(lower: string): string {
    match FindLabel(Categories, lower)
    case Some(c) => c
    case None => OtherCategory
  }

  // ---------------------------------------------------------------------------
  // Amount: parseFloat(text.match(/\$?(\d+(\.\d{1,2})?)/)?.[1] || '0')
  // ---------------------------------------------------------------------------

  /** Capture group 1 of a match: `s[start..end]`. */
  datatype Capture = Capture(start: nat, end: nat)

  /** End of the greedy `\d+` that starts at `i`: the first non-digit at or after `i`. */
  function RunEnd(s: string, i: nat): (e: nat)
    requires i <= |s|
    ensures i <= e <= |s|
    ensures forall k :: i <= k < e ==> IsDigit(s[k])
    ensures e == |s| || !IsDigit(s[e])
    decreases |s| - i
  {
    if i < |s| && IsDigit(s[i]) then RunEnd(s, i + 1) else i
  }

  /** End of the greedy optional `(\.\d{1,2})` once the digits end at `e`. */
  function FractionEnd(s: string, e: nat): (f: nat)
    requires e <= |s|
    ensures f == e || ((f == e + 2 || f == e + 3) && f <= |s|)
  {
    if e + 1 < |s| && s[e] == '.' && IsDigit(s[e + 1]) then
      if e + 2 < |s| && IsDigit(s[e + 2]) then e + 3 else e + 2
    else e
  }

  /** The group when `\d+` starts at `i`. */
  function GroupAt(s: string, i: nat): Capture
    requires i <= |s|
  {
    Capture(i, FractionEnd(s, RunEnd(s, i)))
  }

  /** The pattern tried at position `p`: `\$?` greedily, then `\d+`. */
  function MatchAt(s: string, p: nat): (m: Option<Capture>)
    requires p <= |s|
    ensures m.Some? ==> m.value.start < |s| && IsDigit(s[m.value.start]) && m.value == GroupAt(s, m.value.start)
    ensures m.Some? ==> m.value.start == p || (m.value.start == p + 1 && s[p] == '$')
  {
    if p + 1 < |s| && s[p] == '$' && IsDigit(s[p + 1]) then Some(GroupAt(s, p + 1))
    else if p < |s| && IsDigit(s[p]) then Some(GroupAt(s, p))
    else None
  }

  /** `s.match(pattern)` from position `p` on: the leftmost position where the pattern matches. */
  function FirstMatch(s: string, p: nat): (m: Option<Capture>)
    requires p <= |s|
    ensures m.Some? ==> p <= m.value.start < m.value.end <= |s| && IsDigit(s[m.value.start])
    decreases |s| - p
  {
    if p == |s| || MatchAt(s, p).Some? then MatchAt(s, p) else FirstMatch(s, p + 1)
  }

  /** `text.match(pattern)?.[1] || '0'`. */
  function AmountText(s: string): string {
    match FirstMatch(s, 0)
    case Some(c) => s[c.start..c.end]
    case None => "0"
  }

  /** The strings the group can hold: digits, then optionally `.` and one or two digits. */
  predicate IsAmountLiteral(g: string) {
    var k := RunEnd(g, 0);
    0 < k
    && (k == |g| || (g[k] == '.' && (|g| == k + 2 || |g| == k + 3)
                     && forall j :: k < j < |g| ==> IsDigit(g[j])))
  }

  /** Value of a run of decimal digits, most significant first. */
  function DigitsValue(ds: string): nat
    requires forall k :: 0 <= k < |ds| ==> IsDigit(ds[k])
  {
    if ds == [] then 0 else 10 * DigitsValue(ds[..|ds| - 1]) + DigitValue(ds[|ds| - 1])
  }

  /** Cents of the (at most two) digits after the decimal point. */
  function HundredthsValue(fs: string): (c: nat)
    requires |fs| <= 2 && forall k :: 0 <= k < |fs| ==> IsDigit(fs[k])
    ensures c < 100
  {
    if fs == [] then 0
    else if |fs| == 1 then 10 * DigitValue(fs[0])
    else 10 * DigitValue(fs[0]) + DigitValue(fs[1])
  }

  /** `parseFloat(g)` in cents, for the literals the group can hold; exact,
      because they carry at most two decimals. */
  function ParseFloatCents(g: string): (r: nat)
    requires IsAmountLiteral(g)
    ensures 100 * DigitsValue(g[..RunEnd(g, 0)]) <= r < 100 * DigitsValue(g[..RunEnd(g, 0)]) + 100
    ensures RunEnd(g, 0) == |g| ==> r == 100 * DigitsValue(g)
  {
    var k := RunEnd(g, 0);
    assert g[..|g|] == g;
    100 * DigitsValue(g[..k]) + if k == |g| then 0 else HundredthsValue(g[k + 1..])
  }

  /** The fallback amount, in cents. */
  function FallbackAmount(text: string): nat {
    CaptureIsLiteral(text);
    ParseFloatCents(AmountText(text))
  }

  /** `RunEnd`'s contract determines it. */
  lemma RunEndUnique(s: string, i: nat, e: nat)
    requires i <= e <= |s|
    requires forall k :: i <= k < e ==> IsDigit(s[k])
    requires e == |s| || !IsDigit(s[e])
    ensures RunEnd(s, i) == e
  {
  }

  /** Whatever the pattern captures is a literal `parseFloat` reads exactly. */
  lemma CaptureIsLiteral(s: string)
    ensures IsAmountLiteral(AmountText(s))
  {
    match FirstMatch(s, 0)
    case None =>
      assert RunEnd("0", 1) == 1;
    case Some(c) =>
      FirstMatchIsGroup(s, 0);
      GroupValue(s, c.start);
  }

  /** The fraction the pattern takes and the cents it is worth. */
  lemma FractionValue(s: string, e: nat)
    requires e <= |s|
    ensures FractionEnd(s, e) == e ==> FractionCents(s, e) == 0
    ensures FractionEnd(s, e) != e ==>
              s[e] == '.' && (forall j :: e < j < FractionEnd(s, e) ==> IsDigit(s[j]))
              && HundredthsValue(s[e + 1..FractionEnd(s, e)]) == FractionCents(s, e)
  {
  }

  /** Digits from `d` to `e`, optionally followed by `.` and one or two
      digits up to `f`, form a literal, and `parseFloat` reads it part by part. */
  lemma LiteralParts(s: string, d: nat, e: nat, f: nat)
    requires d < e <= f <= |s|
    requires forall j :: d <= j < e ==> IsDigit(s[j])
    requires f == e || (s[e] == '.' && (f == e + 2 || f == e + 3) && forall j :: e < j < f ==> IsDigit(s[j]))
    ensures IsAmountLiteral(s[d..f])
    ensures ParseFloatCents(s[d..f]) == 100 * DigitsValue(s[d..e]) + if f == e then 0 else HundredthsValue(s[e + 1..f])
  {
    var g := s[d..f];
    forall j | 0 <= j < e - d ensures IsDigit(g[j]) {
      assert g[j] == s[d + j];
    }
    if f != e {
      assert g[e - d] == s[e];
      forall j | e - d < j < |g| ensures IsDigit(g[j]) {
        assert g[j] == s[d + j];
      }
    }
    RunEndUnique(g, 0, e - d);
    assert g[..e - d] == s[d..e];
    if f != e {
      assert g[e - d + 1..] == s[e + 1..f];
    }
  }

  /** The group taken from a digit at `d` is a literal, and `parseFloat` reads
      it as the digit run from `d` plus its one or two decimals. */
  lemma GroupValue(s: string, d: nat)
    requires d < |s| && IsDigit(s[d])
    ensures var c := GroupAt(s, d);
            && IsAmountLiteral(s[c.start..c.end])
            && ParseFloatCents(s[c.start..c.end]) == 100 * DigitsValue(s[d..RunEnd(s, d)]) + FractionCents(s, RunEnd(s, d))
  {
    var e := RunEnd(s, d);
    FractionValue(s, e);
    LiteralParts(s, d, e, FractionEnd(s, e));
  }

  /** Every match the scan returns is the group of a position holding a digit. */
  lemma {:induction false} FirstMatchIsGroup(s: string, p: nat)
    requires p <= |s|
    ensures FirstMatch(s, p).Some? ==> FirstMatch(s, p).value == GroupAt(s, FirstMatch(s, p).value.start)
    decreases |s| - p
  {
    if p < |s| && MatchAt(s, p).None? {
      FirstMatchIsGroup(s, p + 1);
    }
  }

  // ---------------------------------------------------------------------------
  // A reference reading of the amount: from the first digit of the text.
  // ---------------------------------------------------------------------------

  /** Index of the first ASCII digit at or after `p`, or `|s|` when there is none. */
  function FirstDigit(s: string, p: nat): (d: nat)
    requires p <= |s|
    ensures p <= d <= |s|
    ensures d < |s| ==> IsDigit(s[d])
    ensures forall k :: p <= k < d ==> !IsDigit(s[k])
    decreases |s| - p
  {
    if p == |s| || IsDigit(s[p]) then p else FirstDigit(s, p + 1)
  }

  /** Cents of the fraction: `.` right after the digits, then one or two digits. */
  function FractionCents(s: string, e: nat): (c: nat)
    requires e <= |s|
    ensures c < 100
  {
    if e + 1 < |s| && s[e] == '.' && IsDigit(s[e + 1]) then
      10 * DigitValue(s[e + 1]) + if e + 2 < |s| && IsDigit(s[e + 2]) then DigitValue(s[e + 2]) else 0
    else 0
  }

  /** The amount read directly off the text: 0 if it has no ASCII digit;
      otherwise the maximal digit run that starts at the first digit, plus one
      or two decimals when that run is followed by `.` and a digit. */
  function ReferenceAmount(s: string): nat {
    var d := FirstDigit(s, 0);
    if d == |s| then 0 else 100 * DigitsValue(s[d..RunEnd(s, d)]) + FractionCents(s, RunEnd(s, d))
  }

  /** The leftmost match of the pattern captures from the first digit: a `$`
      in front of that digit starts the match one position earlier but is not
      part of the group. */
  lemma {:induction false} FirstMatchIsFirstDigit(s: string, p: nat)
    requires p <= |s|
    ensures FirstMatch(s, p) == if FirstDigit(s, p) == |s| then None else Some(GroupAt(s, FirstDigit(s, p)))
    decreases |s| - p
  {
    if p < |s| && MatchAt(s, p).None? {
      FirstMatchIsFirstDigit(s, p + 1);
    }
  }

  /** The regular-expression reading and the first-digit reading agree. */
  lemma FallbackAmountIsReference(s: string)
    ensures FallbackAmount(s) == ReferenceAmount(s)
  {
    FirstMatchIsFirstDigit(s, 0);
    var d := FirstDigit(s, 0);
    if d == |s| {
      assert AmountText(s) == "0";
      assert RunEnd("0", 1) == 1;
    } else {
      GroupValue(s, d);
    }
  }

  // ---------------------------------------------------------------------------
  // What the fallback promises
  // ---------------------------------------------------------------------------

  /** `FirstDigit`'s contract determines it. */
  lemma FirstDigitUnique(s: string, p: nat, d: nat)
    requires p <= d <= |s|
    requires d < |s| ==> IsDigit(s[d])
    requires forall k :: p <= k < d ==> !IsDigit(s[k])
    ensures FirstDigit(s, p) == d
  {
  }

  /** A run of digits is worth 0 exactly when every digit in it is '0'. */
  lemma {:induction false} DigitsValueZeroIff(ds: string)
    requires forall k :: 0 <= k < |ds| ==> IsDigit(ds[k])
    ensures DigitsValue(ds) == 0 <==> forall k :: 0 <= k < |ds| ==> ds[k] == '0'
  {
    if ds != [] {
      var init := ds[..|ds| - 1];
      DigitsValueZeroIff(init);
      assert forall k :: 0 <= k < |init| ==> init[k] == ds[k];
    }
  }

  /** With no ASCII digit in the text the pattern does not match and the amount is 0. */
  lemma NoDigitNoAmount(text: string)
    requires forall k :: 0 <= k < |text| ==> !IsDigit(text[k])
    ensures AmountText(text) == "0"
    ensures Fallback(text).amount == 0
  {
    FallbackAmountIsReference(text);
    FirstMatchIsFirstDigit(text, 0);
  }

  /** Every digit the pattern captures (the run from the first digit and its
      decimals) is '0'; vacuously so when there is no digit. */
  predicate CapturedDigitsAreZero(s: string) {
    var d := FirstDigit(s, 0);
    d == |s| || forall k :: d <= k < FractionEnd(s, RunEnd(s, d)) && IsDigit(s[k]) ==> s[k] == '0'
  }

  /** The decimals are worth 0 exactly when the digits after the point are '0'. */
  lemma FractionZeroIff(s: string, e: nat)
    requires e <= |s|
    ensures FractionCents(s, e) == 0 <==> forall k :: e < k < FractionEnd(s, e) ==> s[k] == '0'
  {
  }

  /** The digit-run part of `ReferenceAmount` is 0 exactly when the run is all '0'. */
  lemma RunZeroIff(s: string, d: nat)
    requires d < |s|
    ensures DigitsValue(s[d..RunEnd(s, d)]) == 0 <==> forall k :: d <= k < RunEnd(s, d) ==> s[k] == '0'
  {
    var run := s[d..RunEnd(s, d)];
    DigitsValueZeroIff(run);
    assert forall k :: d <= k < RunEnd(s, d) ==> s[k] == run[k - d];
  }

  /** The amount is 0 exactly when the captured digits are all '0': a text
      without digits, but also "0" or "00.00". */
  lemma AmountZeroIff(text: string)
    ensures FallbackAmount(text) == 0 <==> CapturedDigitsAreZero(text)
  {
    FallbackAmountIsReference(text);
    var d := FirstDigit(text, 0);
    if d < |text| {
      var e := RunEnd(text, d);
      RunZeroIff(text, d);
      FractionZeroIff(text, e);
      assert FractionEnd(text, e) != e ==> !IsDigit(text[e]);
    }
  }

  /** A digit is not the same as a non-zero amount: "0" holds a digit and gives 0. */
  lemma ZeroDigitGivesZero()
    ensures FallbackAmount("0") == 0
  {
    AmountZeroIff("0");
  }

  /** The decimals after position `e` do not depend on what precedes the text. */
  lemma FractionShift(pre: string, s: string, e: nat)
    requires e <= |s|
    ensures FractionCents(pre + s, |pre| + e) == FractionCents(s, e)
  {
    var t := pre + s;
    assert forall j :: 0 <= j < |s| ==> t[|pre| + j] == s[j];
  }

  /** A digit-free prefix moves the first digit by its length. */
  lemma FirstDigitShift(pre: string, s: string)
    requires forall k :: 0 <= k < |pre| ==> !IsDigit(pre[k])
    ensures FirstDigit(pre + s, 0) == |pre| + FirstDigit(s, 0)
  {
    var t := pre + s;
    var n := |pre|;
    var d := FirstDigit(s, 0);
    forall k | 0 <= k < n + d ensures !IsDigit(t[k]) {
      if k < n { assert t[k] == pre[k]; } else { assert t[k] == s[k - n]; }
    }
    if d < |s| {
      assert t[n + d] == s[d];
    }
    FirstDigitUnique(t, 0, n + d);
  }

  /** A prefix moves a digit run, and its end, by its length. */
  lemma RunShift(pre: string, s: string, d: nat)
    requires d <= |s|
    ensures RunEnd(pre + s, |pre| + d) == |pre| + RunEnd(s, d)
    ensures (pre + s)[|pre| + d..|pre| + RunEnd(s, d)] == s[d..RunEnd(s, d)]
  {
    var t := pre + s;
    var n := |pre|;
    var e := RunEnd(s, d);
    forall k | n + d <= k < n + e ensures IsDigit(t[k]) {
      assert t[k] == s[k - n];
    }
    if e < |s| {
      assert t[n + e] == s[e];
    }
    RunEndUnique(t, n + d, n + e);
  }

  /** Characters in front of the first digit never change the amount: a `$`
      is dropped, and so is a minus sign, so the amount is never negative. */
  lemma NonDigitPrefixIgnored(pre: string, s: string)
    requires forall k :: 0 <= k < |pre| ==> !IsDigit(pre[k])
    ensures FallbackAmount(pre + s) == FallbackAmount(s)
  {
    FallbackAmountIsReference(pre + s);
    FallbackAmountIsReference(s);
    ReferencePrefixIgnored(pre, s);
  }

  lemma ReferencePrefixIgnored(pre: string, s: string)
    requires forall k :: 0 <= k < |pre| ==> !IsDigit(pre[k])
    ensures ReferenceAmount(pre + s) == ReferenceAmount(s)
  {
    var d := FirstDigit(s, 0);
    FirstDigitShift(pre, s);
    if d < |s| {
      RunShift(pre, s, d);
      FractionShift(pre, s, RunEnd(s, d));
    }
  }

  /** The pattern keeps at most two decimals: "12.345" gives 12.34. */
  lemma ThirdDecimalDropped()
    ensures FallbackAmount("12.345") == 1234
  {
    var s := "12.345";
    FallbackAmountIsReference(s);
    ThirdDecimalParts();
    assert DigitsValue("12") == 12 by {
      assert "12"[..1] == "1";
    }
  }

  /** Where "12.345" splits: digits at 0 and 1, then `.34` read as 34 cents. */
  lemma ThirdDecimalParts()
    ensures FirstDigit("12.345", 0) == 0 && RunEnd("12.345", 0) == 2
    ensures "12.345"[0..2] == "12" && FractionCents("12.345", 2) == 34
  {
    RunEndUnique("12.345", 0, 2);
  }

  /** The type is `income` exactly when one of the income keywords occurs in
      the lowercased text. */
  lemma FallbackIncomeIff(text: string)
    ensures Fallback(text).kind == Income <==>
              exists w, i :: w in IncomeKeywords && OccursAt(ToLower(text), w, i)
  {
    IsIncomeIff(ToLower(text));
  }

  /** The keyword test holds exactly when an income keyword occurs somewhere. */
  lemma IsIncomeIff(lower: string)
    ensures IsIncome(lower) <==> exists w, i :: w in IncomeKeywords && OccursAt(lower, w, i)
  {
    IncludesIff(lower, "earned");
    IncludesIff(lower, "received");
    IncludesIff(lower, "salary");
  }

  /** The category is the first label, in list order, found in the lowercased
      text, and "other" exactly when none is found. */
  lemma FallbackCategoryIsFirstLabel(text: string)
    ensures var c := Fallback(text).category;
            var lower := ToLower(text);
            && (c == OtherCategory || c in Categories)
            && (c == OtherCategory <==> forall j :: 0 <= j < |Categories| ==> !Includes(lower, Categories[j]))
            && (c != OtherCategory ==>
                  exists k :: 0 <= k < |Categories| && c == Categories[k] && Includes(lower, c)
                              && forall j :: 0 <= j < k ==> !Includes(lower, Categories[j]))
  {
    FindLabelIsFirst(Categories, ToLower(text));
    assert OtherCategory !in Categories;
  }
}
