/**
 * The basics step of the wizard: the name, protein, portions, cook time
 * and tags boxes. The cook-time box shows the first run of digits of the
 * stored cook time and stores what the user types as `<n> minutes`; the
 * portions box never stores a value that is not a positive number.
 */
module BasicStep {
  import opened Text
  import opened JsValues
  import opened RecipeForm
  import opened Lists

  // ================================================================ cook time

  /** Number of characters before the first digit of `s`. */
  function LeadingNonDigits(s: string): (k: nat)
    ensures k <= |s|
    ensures forall i :: 0 <= i < k ==> !IsDigit(s[i])
    ensures k < |s| ==> IsDigit(s[k])
  {
    if s != [] && !IsDigit(s[0]) then 1 + LeadingNonDigits(s[1..]) else 0
  }

  /** `cookTimeMinutes`: `(String(cookTime || "").match(/\d+/) || [""])[0]`,
      the first maximal run of digits of the cook time, or `""` when it has
      no digit. */
  function CookTimeMinutes(cookTime: string): (r: string)
    ensures AllDigits(r)
    ensures r == "" <==> forall i :: 0 <= i < |cookTime| ==> !IsDigit(cookTime[i])
    ensures LeadingNonDigits(cookTime) + |r| <= |cookTime|
    ensures r != "" ==>
      var a := LeadingNonDigits(cookTime);
      && cookTime[a..a + |r|] == r
      && (forall i :: 0 <= i < a ==> !IsDigit(cookTime[i]))
      && (a + |r| < |cookTime| ==> !IsDigit(cookTime[a + |r|]))
  {
    var a := LeadingNonDigits(cookTime);
    var t := cookTime[a..];
    var n := LeadingDigits(t);
    assert a < |cookTime| ==> n >= 1;
    assert t[..n] == cookTime[a..a + n];
    assert a + n < |cookTime| ==> cookTime[a + n] == t[n];
    t[..n]
  }

  /** `value.replace(/\D/g, "")`: the digits of `value`, in order. */
  function DigitsOf(value: string): (r: string)
    ensures AllDigits(r) && |r| <= |value|
    ensures r == "" <==> forall i :: 0 <= i < |value| ==> !IsDigit(value[i])
    ensures IsSublist(r, value)
    ensures forall c :: multiset(r)[c] == if IsDigit(c) then multiset(value)[c] else 0
  {
    if value == "" then ""
    else
      var rest := DigitsOf(value[1..]);
      assert forall i :: 1 <= i < |value| ==> value[i] == value[1..][i - 1];
      assert value == [value[0]] + value[1..];
      assert multiset(value) == multiset([value[0]]) + multiset(value[1..]);
      if IsDigit(value[0]) then
        assert ([value[0]] + rest)[1..] == rest;
        [value[0]] + rest
      else rest
  }

  /** The digits of two pieces of text are the digits of the first followed
      by those of the second. */
  lemma {:induction false} DigitsOfAppend(a: string, b: string)
    ensures DigitsOf(a + b) == DigitsOf(a) + DigitsOf(b)
    decreases |a|
  {
    if a == [] {
      assert a + b == b;
    } else {
      assert (a + b)[1..] == a[1..] + b;
      DigitsOfAppend(a[1..], b);
    }
  }

  /** Digits with other text between them are joined: typing `1a2` stores
      `12 minutes`. */
  lemma SpreadDigitsJoined()
    ensures CookTimeFor("1a2") == "12 minutes"
  {
    DigitsOfExample();
    TwelveExample();
    assert "12" + MinutesSuffix == "12 minutes";
  }

  lemma TwelveExample()
    ensures AllDigits("12") && NatToString(DigitsValue("12")) == "12"
  {
    assert DigitsValue("1") == 1 by {
      assert "1"[..0] == "";
    }
    assert DigitsValue("12") == 12 by {
      assert "12"[..1] == "1";
    }
    assert NatToString(12) == "12" by {
      assert 12 / 10 == 1 && 12 % 10 == 2;
      assert NatToString(1) == "1";
    }
  }

  lemma DigitsOfExample()
    ensures DigitsOf("1a2") == "12"
  {
    assert DigitsOf("2") == "2" by {
      assert "2"[1..] == "";
    }
    assert DigitsOf("a2") == "2" by {
      assert "a2"[1..] == "2";
    }
    assert "1a2"[1..] == "a2";
  }

  const MinutesSuffix: string := " minutes"

  /** The cook time `handleCookTimeChange(value)` stores: `""` when the
      typed text has no digit, otherwise the number its digits spell, in
      decimal without leading zeros, followed by ` minutes`. */
  function CookTimeFor(value: string): (cookTime: string)
    ensures DigitsOf(value) == "" ==> cookTime == ""
    ensures DigitsOf(value) != "" ==>
      cookTime == NatToString(DigitsValue(DigitsOf(value))) + MinutesSuffix
  {
    var digitsOnly := DigitsOf(value);
    if digitsOnly == "" then "" else NatToString(DigitsValue(digitsOnly)) + MinutesSuffix
  }

  /** `handleCookTimeChange(value)`. */
  function HandleCookTimeChange(f: FormRecipe, value: string): (g: FormRecipe)
    ensures g.cookTime == CookTimeFor(value)
    ensures g.(cookTime := f.cookTime) == f
  {
    f.(cookTime := CookTimeFor(value))
  }

  /** The box reads back what was stored: after typing text with digits,
      `cookTimeMinutes` is the number those digits spell, with its leading
      zeros dropped. */
  lemma CookTimeRoundTrip(f: FormRecipe, value: string)
    requires DigitsOf(value) != ""
    ensures CookTimeMinutes(HandleCookTimeChange(f, value).cookTime) == NatToString(DigitsValue(DigitsOf(value)))
  {
    MinutesReadBack(NatToString(DigitsValue(DigitsOf(value))));
  }

  lemma MinutesReadBack(m: string)
    requires m != "" && AllDigits(m)
    ensures CookTimeMinutes(m + MinutesSuffix) == m
  {
    var s := m + MinutesSuffix;
    assert s[0] == m[0];
    assert LeadingNonDigits(s) == 0;
    assert s[0..] == s;
    var n := LeadingDigits(s);
    assert forall i :: 0 <= i < |m| ==> s[i] == m[i];
    assert s[|m|] == ' ';
    assert n == |m|;
    assert s[..|m|] == m;
  }

  /** A cook time stored by the box with digits typed whose first is not
      `0` reads back as exactly those digits. */
  lemma CookTimeKeepsTypedNumber(f: FormRecipe, value: string)
    requires DigitsOf(value) != "" && DigitsOf(value)[0] != '0'
    ensures CookTimeMinutes(HandleCookTimeChange(f, value).cookTime) == DigitsOf(value)
  {
    CookTimeRoundTrip(f, value);
    NatToStringOfDigits(DigitsOf(value));
  }

  /** Text without digits clears the cook time. */
  lemma CookTimeCleared(f: FormRecipe, value: string)
    requires forall i :: 0 <= i < |value| ==> !IsDigit(value[i])
    ensures HandleCookTimeChange(f, value).cookTime == ""
    ensures CookTimeMinutes(HandleCookTimeChange(f, value).cookTime) == ""
  {
  }

  // ================================================================ portions

  /** The value of the number box: `""`, or what `Number(raw)` gives. */
  datatype PortionsInput = EmptyBox | Typed(n: JsNumber)

  /** The portions the onChange stores: the typed number when it is finite
      and positive, 1 otherwise (an empty box included). */
  function PortionsFor(raw: PortionsInput): (p: real)
    ensures p > 0.0
    ensures raw.Typed? && raw.n.Finite? && raw.n.value > 0.0 ==> p == raw.n.value
    ensures !(raw.Typed? && raw.n.Finite? && raw.n.value > 0.0) ==> p == 1.0
  {
    var next := if raw.EmptyBox? then Finite(1.0) else raw.n;
    if next.Finite? && next.value > 0.0 then next.value else 1.0
  }

  function EditPortions(f: FormRecipe, raw: PortionsInput): (g: FormRecipe)
    ensures g.portions > 0.0
    ensures g.(portions := f.portions) == f
  {
    f.(portions := PortionsFor(raw))
  }

  // ================================================================ the other boxes

  function EditName(f: FormRecipe, value: string): (g: FormRecipe)
    ensures g.name == value && g.(name := f.name) == f
  {
    f.(name := value)
  }

  function EditProtein(f: FormRecipe, value: string): (g: FormRecipe)
    ensures g.protein == value && g.(protein := f.protein) == f
  {
    f.(protein := value)
  }

  function EditTags(f: FormRecipe, value: string): (g: FormRecipe)
    ensures g.tags == value && g.(tags := f.tags) == f
  {
    f.(tags := value)
  }

  /** The step's edits keep the form's lists, so they keep every form the
      wizard holds well formed. */
  lemma EditsKeepForm(f: FormRecipe, value: string, raw: PortionsInput)
    requires FormOk(f)
    ensures FormOk(EditName(f, value)) && FormOk(EditProtein(f, value)) && FormOk(EditTags(f, value))
    ensures FormOk(EditPortions(f, raw)) && FormOk(HandleCookTimeChange(f, value))
  {
  }

  /** Portions edits alone decide the portions part of `basicsValid`: it
      always holds after one. */
  lemma PortionsEditKeepsBasics(f: FormRecipe, raw: PortionsInput)
    ensures BasicsValid(EditPortions(f, raw)) <==> Trim(f.name) != "" && Trim(f.protein) != ""
  {
  }
}
