/** The admin's inline formset for a recipe's ingredient amounts, whose
    `clean` demands at least one filled-in form. */
module Admin {
  import opened Validators

  /** INGREDIENTS_COUNT_ERROR */
  const IngredientsCountError := "Нужно указать хотя бы один ингредиент."

  /** One inline form; its `cleaned_data` is truthy when it is non-empty. */
  datatype Form = Form(cleanedData: map<string, string>)

  predicate IsFilled(form: Form) {
    |form.cleanedData| > 0
  }

  /** The number of forms with cleaned data. */
  function FilledCount(forms: seq<Form>): (n: nat)
    ensures n <= |forms|
  {
    if |forms| == 0 then 0
    else FilledCount(forms[..|forms| - 1]) + (if IsFilled(forms[|forms| - 1]) then 1 else 0)
  }

  /** No form counts exactly when none is filled in. */
  lemma {:induction false} FilledCountZero(forms: seq<Form>)
    ensures FilledCount(forms) == 0 <==> forall i :: 0 <= i < |forms| ==> !IsFilled(forms[i])
  {
    if |forms| > 0 {
      var init := forms[..|forms| - 1];
      FilledCountZero(init);
      assert forall i :: 0 <= i < |init| ==> init[i] == forms[i];
    }
  }

  /** `IngredientAmountInlineFormset.clean`: it counts the filled-in forms
      and fails when there is none; the forms are read, not changed. */
  method Clean(forms: seq<Form>) returns (r: Check)
    ensures r.Fail? <==> forall i :: 0 <= i < |forms| ==> !IsFilled(forms[i])
    ensures r.Fail? ==> r.message == IngredientsCountError
  {
    var count := 0;
    for i := 0 to |forms|
      invariant count == FilledCount(forms[..i])
    {
      assert forms[..i + 1][..i] == forms[..i];
      if IsFilled(forms[i]) {
        count := count + 1;
      }
    }
    assert forms[..|forms|] == forms;
    FilledCountZero(forms);
    if count < 1 {
      r := Fail(IngredientsCountError);
    } else {
      r := Pass;
    }
  }
}
