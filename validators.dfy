/** Field validators of the recipes app: the tag colour and slug patterns
    and the lower bounds on cooking time and ingredient amount. A failed
    check carries the validator's message, as Django's ValidationError does. */
module Validators {
  import opened Text
  import opened Patterns

  datatype Check = Pass | Fail(message: string)

  const HexColorError := "Введите правильный цвет. Это значение должно начинаться с символа #, за которым следует три пары шестнадцатеричных цифр. Пример: #8fce00."
  const MinCookingTimeError := "Время приготовления не может быть меньше 1 минуты."
  const MinIngredientAmountError := "Количества ингредиента не может быть меньше 1."
  const SlugError := "Значение должно состоять только из латинских букв, цифр, знаков подчеркивания или дефиса."

  predicate IsHexDigit(c: char) {
    'a' <= c <= 'f' || 'A' <= c <= 'F' || IsAsciiDigit(c)
  }

  predicate IsSlugChar(c: char) {
    c == '-' || IsAsciiLower(c) || IsAsciiUpper(c) || IsAsciiDigit(c) || c == '_'
  }

  /** `^#[a-fA-F0-9]{6}\Z` */
  const HexColorPattern: seq<Piece> := [Lit('#'), Run(IsHexDigit, 6, AtMost(6)), EndOfString]

  /** `^[-a-zA-Z0-9_]+$` */
  const SlugPattern: seq<Piece> := [Run(IsSlugChar, 1, Unbounded), EndOrFinalNewline]

  /** A hex colour is `#` and exactly six hex digits, nothing after them. */
  ghost predicate IsHexColor(s: string) {
    |s| == 7 && s[0] == '#' && forall i :: 1 <= i < 7 ==> IsHexDigit(s[i])
  }

  /** A slug (as the pattern accepts it) is a non-empty run of slug
      characters, optionally followed by one newline that `$` lets through. */
  ghost predicate IsSlugText(s: string) {
    |s| > 0 && forall i :: 0 <= i < |s| ==> IsSlugChar(s[i])
  }

  ghost predicate IsAcceptedSlug(s: string) {
    IsSlugText(s) || (|s| > 0 && s[|s| - 1] == '\n' && IsSlugText(s[..|s| - 1]))
  }

  lemma {:induction false} HexColorLanguage(s: string)
    ensures Matches(HexColorPattern, s) <==> IsHexColor(s)
  {
    var p := HexColorPattern;
    if |s| > 0 && s[0] == '#' {
      var t := s[1..];
      var k := Taken(t, IsHexDigit, AtMost(6));
      assert Matches(p, s) == (6 <= k && Matches(p[1..][1..], t[k..]));
      if IsHexColor(s) {
        assert forall i :: 0 <= i < 6 ==> t[i] == s[i + 1];
        assert RunLength(t, IsHexDigit) >= 6;
        assert k == 6;
      }
      if Matches(p, s) {
        assert k == 6 && |t[k..]| == 0;
        assert forall i :: 1 <= i < 7 ==> s[i] == t[i - 1];
      }
    }
  }

  lemma {:induction false} SlugLanguage(s: string)
    ensures Matches(SlugPattern, s) <==> IsAcceptedSlug(s)
  {
    var k := RunLength(s, IsSlugChar);
    assert Taken(s, IsSlugChar, Unbounded) == k;
    assert SlugPattern[1..] == [EndOrFinalNewline];
    assert Matches(SlugPattern[1..], s[k..]) == (s[k..] == "" || s[k..] == "\n");
    assert Matches(SlugPattern, s) == (1 <= k && (s[k..] == "" || s[k..] == "\n"));
    if IsSlugText(s) {
      assert k == |s|;
    } else if |s| > 0 && s[|s| - 1] == '\n' && IsSlugText(s[..|s| - 1]) {
      RunLengthOfConcat(s[..|s| - 1], "\n", IsSlugChar);
      assert s == s[..|s| - 1] + "\n";
    }
    if 1 <= k && s[k..] == "\n" {
      assert s[..|s| - 1] == s[..k];
    }
  }

  /** RegexValidator(r'^#[a-fA-F0-9]{6}\Z', HEX_COLOR_ERROR) */
  function ValidateHexColor(value: string): (r: Check)
    ensures r.Pass? <==> IsHexColor(value)
    ensures r.Fail? ==> r.message == HexColorError
  {
    HexColorLanguage(value);
    if Matches(HexColorPattern, value) then Pass else Fail(HexColorError)
  }

  /** RegexValidator(r'^[-a-zA-Z0-9_]+$', SLUG_ERROR) */
  function ValidateSlug(value: string): (r: Check)
    ensures r.Pass? <==> IsAcceptedSlug(value)
    ensures r.Fail? ==> r.message == SlugError
  {
    SlugLanguage(value);
    if Matches(SlugPattern, value) then Pass else Fail(SlugError)
  }

  /** `\Z` admits nothing after the sixth digit, not even a newline. */
  lemma HexColorRejectsTrailingNewline(s: string)
    ensures ValidateHexColor(s + "\n").Fail?
  {
    assert (s + "\n")[|s|] == '\n';
  }

  /** `$` lets exactly one final newline through after a slug. */
  lemma {:induction false} SlugAcceptsFinalNewline(s: string)
    requires ValidateSlug(s).Pass?
    ensures ValidateSlug(s + "\n").Pass? <==> s[|s| - 1] != '\n'
  {
    var t := s + "\n";
    assert t[..|t| - 1] == s;
    if s[|s| - 1] == '\n' {
      assert !IsSlugChar(t[|t| - 2]);
      assert !IsSlugText(t[..|t| - 1]) by { assert t[..|t| - 1][|t| - 2] == t[|t| - 2]; }
    } else {
      assert IsSlugText(s);
    }
  }

  /** Any disallowed character other than that one final newline fails. */
  lemma SlugRejectsForeignChar(s: string, i: nat)
    requires i < |s| && !IsSlugChar(s[i])
    requires !(i == |s| - 1 && s[i] == '\n')
    ensures ValidateSlug(s).Fail?
  {
    if i < |s| - 1 {
      assert s[..|s| - 1][i] == s[i];
    }
  }

  function MinCookingTimeValidator(time: int): (r: Check)
    ensures r.Fail? <==> time < 1
    ensures r.Fail? ==> r.message == MinCookingTimeError
  {
    if time < 1 then Fail(MinCookingTimeError) else Pass
  }

  function MinIngredientAmountValidator(amount: int): (r: Check)
    ensures r.Fail? <==> amount < 1
    ensures r.Fail? ==> r.message == MinIngredientAmountError
  {
    if amount < 1 then Fail(MinIngredientAmountError) else Pass
  }
}
