/** The recipes app's reference entities, Ingredient and Tag, with their
    `__str__` formatters. Recipe, IngredientAmount, Favorite and ShoppingCart
    are not declared in the modelled files; they appear elsewhere only as
    ids and rows. */
module Recipes {
  import opened Wrappers
  import opened Text

  type RecipeId = nat
  type IngredientId = nat
  type TagId = nat

  datatype Ingredient = Ingredient(id: IngredientId, name: string, measurementUnit: string)

  datatype Tag = Tag(id: TagId, name: string, color: string, slug: string)

  /** How many characters of a name `__str__` keeps. */
  const StrNameLength := 15

  /** `str(pk)`: the primary key of a saved row, `None` before it is saved. */
  function PkText(pk: Option<nat>): (s: string)
    ensures pk.None? ==> s == "None"
    ensures pk.Some? ==> IsDigitString(s) && ParseDigits(s) == pk.value
  {
    match pk
    case None => "None"
    case Some(n) => ParseNatToString(n); NatToString(n)
  }

  /** INGREDIENT_STR = 'id: {}, название: {}, ед.изм.: {}' */
  function IngredientStr(pk: Option<nat>, name: string, unit: string): (s: string)
    ensures |s| == |"id: " + ", название: " + ", ед.изм.: "| + |PkText(pk)|
                   + Min(|name|, StrNameLength) + Min(|unit|, StrNameLength)
  {
    "id: " + PkText(pk) + ", название: " + Truncate(name, StrNameLength)
    + ", ед.изм.: " + Truncate(unit, StrNameLength)
  }

  /** TAG_STR = 'id:{}, название: {}, цвет: {}, метка: {}' */
  function TagStr(pk: Option<nat>, name: string, color: string, slug: string): (s: string) {
    "id:" + PkText(pk) + ", название: " + Truncate(name, StrNameLength)
    + ", цвет: " + color + ", метка: " + slug
  }

  /** The name and the unit are cut to their first 15 characters, and a
      name or unit that short appears in full. */
  lemma IngredientStrParts(pk: Option<nat>, name: string, unit: string)
    ensures var shown := Truncate(name, StrNameLength);
      && |shown| == Min(|name|, StrNameLength)
      && shown == name[..|shown|]
      && IngredientStr(pk, name, unit) ==
           "id: " + PkText(pk) + ", название: " + shown + ", ед.изм.: " + Truncate(unit, StrNameLength)
    ensures |name| <= StrNameLength && |unit| <= StrNameLength ==>
      IngredientStr(pk, name, unit) == "id: " + PkText(pk) + ", название: " + name + ", ед.изм.: " + unit
    ensures var tail := ", ед.изм.: " + Truncate(unit, StrNameLength);
      IngredientStr(pk, name, unit)[|IngredientStr(pk, name, unit)| - |tail|..] == tail
  {
  }

  /** Only the tag's name is cut; colour and slug are shown in full at the end. */
  lemma TagStrParts(pk: Option<nat>, name: string, color: string, slug: string)
    ensures var tail := ", цвет: " + color + ", метка: " + slug;
      var s := TagStr(pk, name, color, slug);
      |s| >= |tail| && s[|s| - |tail|..] == tail
    ensures |name| <= StrNameLength ==>
      TagStr(pk, name, color, slug) == "id:" + PkText(pk) + ", название: " + name + ", цвет: " + color + ", метка: " + slug
    ensures |TagStr(pk, name, color, slug)| ==
      |"id:" + PkText(pk) + ", название: " + ", цвет: " + ", метка: "| + Min(|name|, StrNameLength) + |color| + |slug|
  {
  }
}
