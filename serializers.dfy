/** The write rules of `RecipeSerializer` (the duplicate-ingredient check and
    the ingredient-amount and tag rows written by `create` and `update`) and
    the `recipes_limit` cap of `SubscribeReadSerializer.get_recipes`. */
module Serializers {
  import opened Wrappers
  import opened Text
  import opened Users
  import opened Recipes

  /** One validated entry of the `ingredients` field: `{'ingredient': ..., 'amount': ...}`. */
  datatype AmountEntry = AmountEntry(ingredient: Ingredient, amount: int)

  /** `[ingredient['ingredient'] for ingredient in ingredients]` */
  function IngredientsOf(entries: seq<AmountEntry>): (r: seq<Ingredient>)
    ensures |r| == |entries|
    ensures forall i :: 0 <= i < |entries| ==> r[i] == entries[i].ingredient
  {
    if |entries| == 0 then [] else [entries[0].ingredient] + IngredientsOf(entries[1..])
  }

  /** The ingredients that occur at least twice. */
  function Duplicated(xs: seq<Ingredient>): (d: set<Ingredient>)
    ensures forall x :: x in d <==> multiset(xs)[x] >= 2
  {
    set x | x in xs && multiset(xs)[x] >= 2
  }

  /** `list.remove(x)`: drop the first occurrence of `x`. */
  function RemoveFirst(s: seq<Ingredient>, x: Ingredient): (r: seq<Ingredient>)
    requires x in s
    ensures multiset(r) == multiset(s) - multiset{x}
  {
    if s[0] == x then
      assert s == [s[0]] + s[1..];
      s[1..]
    else
      assert s == [s[0]] + s[1..];
      [s[0]] + RemoveFirst(s[1..], x)
  }

  /** `RecipeSerializer.validate_ingredients`: the list is returned unchanged
      unless some ingredient occurs twice or more; the error then names each
      such ingredient once. */
  method ValidateIngredients(ingredients: seq<AmountEntry>)
    returns (r: Result<seq<AmountEntry>, set<Ingredient>>)
    ensures r.Ok? <==> Duplicated(IngredientsOf(ingredients)) == {}
    ensures r.Ok? ==> r.value == ingredients
    ensures r.Err? ==> r.error == Duplicated(IngredientsOf(ingredients))
  {
    var all := IngredientsOf(ingredients);
    var sameIngredients := all;
    var distinct := set x | x in all;
    var pending := distinct;
    while pending != {}
      invariant pending <= distinct
      invariant multiset(sameIngredients) == multiset(all) - multiset(distinct - pending)
      decreases pending
    {
      var x :| x in pending;
      RemovalStep(all, sameIngredients, distinct, pending, x);
      sameIngredients := RemoveFirst(sameIngredients, x);
      pending := pending - {x};
    }
    assert distinct - pending == distinct;
    LeftoverIsDuplicated(all, sameIngredients);
    if |sameIngredients| > 0 {
      r := Err(set x | x in sameIngredients);
    } else {
      r := Ok(ingredients);
    }
  }

  /** One pass of the loop: the chosen ingredient is still in the list, and
      removing it once keeps the loop invariant. */
  lemma RemovalStep(all: seq<Ingredient>, same: seq<Ingredient>, distinct: set<Ingredient>,
                    pending: set<Ingredient>, x: Ingredient)
    requires distinct == set y | y in all
    requires x in pending && pending <= distinct
    requires multiset(same) == multiset(all) - multiset(distinct - pending)
    ensures x in same
    ensures multiset(same) - multiset{x} == multiset(all) - multiset(distinct - (pending - {x}))
  {
    assert x !in distinct - pending;
    assert multiset(same)[x] == multiset(all)[x];
    assert distinct - (pending - {x}) == (distinct - pending) + {x};
  }

  /** After one removal per distinct ingredient, what is left holds exactly
      the ingredients that occurred more than once. */
  lemma LeftoverIsDuplicated(all: seq<Ingredient>, same: seq<Ingredient>)
    requires multiset(same) == multiset(all) - multiset(set y | y in all)
    ensures (set x | x in same) == Duplicated(all)
    ensures |same| > 0 <==> Duplicated(all) != {}
  {
    var distinct := set y | y in all;
    forall x
      ensures x in same <==> multiset(all)[x] >= 2
    {
      assert multiset(distinct)[x] == if x in all then 1 else 0;
      assert x in all <==> multiset(all)[x] > 0;
    }
    if |same| > 0 {
      assert same[0] in Duplicated(all);
    }
  }

  ghost predicate RepeatedIn(xs: seq<Ingredient>, x: Ingredient) {
    exists i, j :: 0 <= i < j < |xs| && xs[i] == x && xs[j] == x
  }

  lemma MultisetOfCons(xs: seq<Ingredient>, x: Ingredient)
    requires |xs| > 0
    ensures multiset(xs)[x] == multiset(xs[1..])[x] + (if xs[0] == x then 1 else 0)
  {
    assert xs == [xs[0]] + xs[1..];
  }

  lemma RepeatedAfterSameHead(xs: seq<Ingredient>, x: Ingredient)
    requires |xs| > 0 && xs[0] == x
    ensures RepeatedIn(xs, x) <==> x in xs[1..]
  {
    var rest := xs[1..];
    if x in rest {
      var j :| 0 <= j < |rest| && rest[j] == x;
      assert xs[0] == x && xs[j + 1] == x;
    }
    if RepeatedIn(xs, x) {
      var i, j :| 0 <= i < j < |xs| && xs[i] == x && xs[j] == x;
      assert rest[j - 1] == x;
    }
  }

  lemma RepeatedAfterOtherHead(xs: seq<Ingredient>, x: Ingredient)
    requires |xs| > 0 && xs[0] != x
    ensures RepeatedIn(xs, x) <==> RepeatedIn(xs[1..], x)
  {
    var rest := xs[1..];
    if RepeatedIn(rest, x) {
      var i, j :| 0 <= i < j < |rest| && rest[i] == x && rest[j] == x;
      assert xs[i + 1] == x && xs[j + 1] == x;
    }
    if RepeatedIn(xs, x) {
      var i, j :| 0 <= i < j < |xs| && xs[i] == x && xs[j] == x;
      assert rest[i - 1] == x && rest[j - 1] == x;
    }
  }

  /** Two entries with the same ingredient are exactly what makes an
      ingredient duplicated. */
  lemma {:induction false} DuplicatedMeansRepeated(xs: seq<Ingredient>, x: Ingredient)
    ensures x in Duplicated(xs) <==> RepeatedIn(xs, x)
  {
    if |xs| > 0 {
      MultisetOfCons(xs, x);
      if xs[0] == x {
        RepeatedAfterSameHead(xs, x);
      } else {
        RepeatedAfterOtherHead(xs, x);
        DuplicatedMeansRepeated(xs[1..], x);
      }
    }
  }

  lemma {:induction false} IngredientsOfConcat(a: seq<AmountEntry>, b: seq<AmountEntry>)
    ensures IngredientsOf(a + b) == IngredientsOf(a) + IngredientsOf(b)
  {
  }

  lemma {:induction false} IngredientsOfRemoveAt(b: seq<AmountEntry>, j: nat)
    requires j < |b|
    ensures multiset(IngredientsOf(b)) ==
      multiset(IngredientsOf(b[..j] + b[j + 1..])) + multiset{b[j].ingredient}
  {
    assert b == b[..j] + [b[j]] + b[j + 1..];
    IngredientsOfConcat(b[..j] + [b[j]], b[j + 1..]);
    IngredientsOfConcat(b[..j], [b[j]]);
    IngredientsOfConcat(b[..j], b[j + 1..]);
  }

  lemma DuplicatedDependsOnMultiset(xs: seq<Ingredient>, ys: seq<Ingredient>)
    requires multiset(xs) == multiset(ys)
    ensures Duplicated(xs) == Duplicated(ys)
  {
  }

  /** Reordering the entries does not change which ingredients are duplicated,
      so validation accepts or rejects a permutation alike. */
  lemma {:induction false} ValidationIgnoresOrder(a: seq<AmountEntry>, b: seq<AmountEntry>)
    requires multiset(a) == multiset(b)
    ensures multiset(IngredientsOf(a)) == multiset(IngredientsOf(b))
    ensures Duplicated(IngredientsOf(a)) == Duplicated(IngredientsOf(b))
    decreases |a|
  {
    if |a| == 0 {
      assert |b| == 0 by { assert |multiset(b)| == |b|; }
    } else {
      var e := a[0];
      assert e in multiset(b);
      var j :| 0 <= j < |b| && b[j] == e;
      var b' := b[..j] + b[j + 1..];
      assert multiset(a[1..]) == multiset(b') by {
        assert a == [e] + a[1..];
        assert b == b[..j] + [e] + b[j + 1..];
        assert multiset(a[1..]) == multiset(a) - multiset{e};
        assert multiset(b') == multiset(b) - multiset{e};
      }
      ValidationIgnoresOrder(a[1..], b');
      IngredientsOfRemoveAt(a, 0);
      assert a[..0] + a[1..] == a[1..];
      IngredientsOfRemoveAt(b, j);
    }
    DuplicatedDependsOnMultiset(IngredientsOf(a), IngredientsOf(b));
  }

  /** One IngredientAmount row. */
  datatype AmountRow = AmountRow(recipe: RecipeId, ingredient: Ingredient, amount: int)

  /** The amount rows the loop of `set_m2m_fields` creates for `recipe`. */
  function RowsFor(recipe: RecipeId, entries: seq<AmountEntry>): (rows: seq<AmountRow>)
    ensures |rows| == |entries|
    ensures forall i :: 0 <= i < |entries| ==>
      rows[i] == AmountRow(recipe, entries[i].ingredient, entries[i].amount)
  {
    if |entries| == 0 then []
    else RowsFor(recipe, entries[..|entries| - 1])
         + [AmountRow(recipe, entries[|entries| - 1].ingredient, entries[|entries| - 1].amount)]
  }

  /** `recipe.amounts_of_ingredients.all()`: the rows of one recipe, in table order. */
  function RowsOf(rows: seq<AmountRow>, recipe: RecipeId): (r: seq<AmountRow>)
    ensures forall x :: x in r <==> x in rows && x.recipe == recipe
  {
    if |rows| == 0 then []
    else (if rows[0].recipe == recipe then [rows[0]] else []) + RowsOf(rows[1..], recipe)
  }

  /** The table after `recipe.amounts_of_ingredients.all().delete()`. */
  function RowsNotOf(rows: seq<AmountRow>, recipe: RecipeId): (r: seq<AmountRow>)
    ensures forall x :: x in r <==> x in rows && x.recipe != recipe
  {
    if |rows| == 0 then []
    else (if rows[0].recipe != recipe then [rows[0]] else []) + RowsNotOf(rows[1..], recipe)
  }

  lemma {:induction false} RowsOfConcat(a: seq<AmountRow>, b: seq<AmountRow>, recipe: RecipeId)
    ensures RowsOf(a + b, recipe) == RowsOf(a, recipe) + RowsOf(b, recipe)
  {
    if |a| > 0 {
      assert (a + b)[1..] == a[1..] + b;
      RowsOfConcat(a[1..], b, recipe);
    } else {
      assert a + b == b;
    }
  }

  lemma {:induction false} RowsOfRowsNotOf(rows: seq<AmountRow>, recipe: RecipeId, other: RecipeId)
    ensures RowsOf(RowsNotOf(rows, recipe), other) == if other == recipe then [] else RowsOf(rows, other)
  {
    if |rows| > 0 {
      RowsOfRowsNotOf(rows[1..], recipe, other);
      var head := if rows[0].recipe != recipe then [rows[0]] else [];
      RowsOfConcat(head, RowsNotOf(rows[1..], recipe), other);
      assert head == [] ==> head + RowsNotOf(rows[1..], recipe) == RowsNotOf(rows[1..], recipe);
      assert head != [] ==> RowsOf(head, other) == (if rows[0].recipe == other then [rows[0]] else []) by {
        if head != [] {
          assert head[1..] == [];
        }
      }
    }
  }

  lemma {:induction false} RowsOfRowsFor(recipe: RecipeId, entries: seq<AmountEntry>, other: RecipeId)
    ensures RowsOf(RowsFor(recipe, entries), other) == if other == recipe then RowsFor(recipe, entries) else []
  {
    if |entries| > 0 {
      var init := entries[..|entries| - 1];
      var last := AmountRow(recipe, entries[|entries| - 1].ingredient, entries[|entries| - 1].amount);
      RowsOfRowsFor(recipe, init, other);
      RowsOfConcat(RowsFor(recipe, init), [last], other);
      assert [last][1..] == [];
    }
  }

  /** A write scoped to one recipe: the recipe's rows become exactly the
      new rows (after deleting its old ones, when `clear`) and every other
      recipe's rows stay as they were. */
  lemma {:induction false} WriteIsScoped(rows: seq<AmountRow>, recipe: RecipeId, entries: seq<AmountEntry>,
                                         clear: bool, other: RecipeId)
    ensures var base := if clear then RowsNotOf(rows, recipe) else rows;
      RowsOf(base + RowsFor(recipe, entries), other) ==
        if other != recipe then RowsOf(rows, other)
        else if clear then RowsFor(recipe, entries)
        else RowsOf(rows, recipe) + RowsFor(recipe, entries)
  {
    var base := if clear then RowsNotOf(rows, recipe) else rows;
    RowsOfConcat(base, RowsFor(recipe, entries), other);
    RowsOfRowsFor(recipe, entries, other);
    if clear {
      RowsOfRowsNotOf(rows, recipe, other);
    }
  }

  /** The recipe-tag links after `recipe.tags.set(tags)`: the recipe's
      links become exactly `tags`, other recipes' links are kept. */
  function TagLinksAfterSet(links: set<(RecipeId, TagId)>, recipe: RecipeId, tags: seq<TagId>)
    : (r: set<(RecipeId, TagId)>)
    ensures forall l :: l in r <==> (l in links && l.0 != recipe) || (l.0 == recipe && l.1 in tags)
  {
    (set l | l in links && l.0 != recipe) + (set t | t in tags :: (recipe, t))
  }

  /** The validated scalar fields of a recipe (`name`, `image`, `text`, `cooking_time`). */
  datatype RecipeFields = RecipeFields(name: string, image: seq<int>, text: string, cookingTime: int)

  datatype RecipeRecord = RecipeRecord(author: UserId, fields: RecipeFields)

  /** The scalar fields an update request carries; a partial update (PATCH)
      may leave any of them out. */
  datatype FieldsUpdate = FieldsUpdate(
    name: Option<string>, image: Option<seq<int>>, text: Option<string>, cookingTime: Option<int>)

  function Pick<T>(sent: Option<T>, stored: T): T {
    if sent.Some? then sent.value else stored
  }

  /** `ModelSerializer.update`: every sent field overwrites the stored one;
      the others keep their values. */
  function Merged(stored: RecipeFields, sent: FieldsUpdate): (r: RecipeFields)
    // A full update replaces every field.
    ensures sent.name.Some? && sent.image.Some? && sent.text.Some? && sent.cookingTime.Some? ==>
      r == RecipeFields(sent.name.value, sent.image.value, sent.text.value, sent.cookingTime.value)
    // An update that sends nothing keeps the record.
    ensures sent == FieldsUpdate(None, None, None, None) ==> r == stored
    // A field that is not sent keeps its stored value.
    ensures sent.name.None? ==> r.name == stored.name
    ensures sent.image.None? ==> r.image == stored.image
    ensures sent.text.None? ==> r.text == stored.text
    ensures sent.cookingTime.None? ==> r.cookingTime == stored.cookingTime
  {
    RecipeFields(Pick(sent.name, stored.name), Pick(sent.image, stored.image),
                 Pick(sent.text, stored.text), Pick(sent.cookingTime, stored.cookingTime))
  }

  /** The Recipe table with its IngredientAmount rows and its recipe-tag links. */
  class RecipeStore {
    var recipes: map<RecipeId, RecipeRecord>
    var amounts: seq<AmountRow>
    var tagLinks: set<(RecipeId, TagId)>
    var nextId: RecipeId

    /** Every row and link belongs to an existing recipe; new ids are fresh. */
    ghost predicate Valid()
      reads this
    {
      && (forall k :: k in recipes ==> k < nextId)
      && (forall i :: 0 <= i < |amounts| ==> amounts[i].recipe in recipes)
      && (forall l :: l in tagLinks ==> l.0 in recipes)
    }

    constructor ()
      ensures Valid() && recipes == map[] && amounts == [] && tagLinks == {}
    {
      recipes := map[];
      amounts := [];
      tagLinks := {};
      nextId := 0;
    }

    /** `RecipeSerializer.set_m2m_fields`: optionally delete the recipe's
        amount rows, create one row per entry, and set the recipe's tags. */
    method SetM2MFields(recipe: RecipeId, ingredients: seq<AmountEntry>, tags: seq<TagId>, clear: bool)
      requires Valid() && recipe in recipes
      modifies this`amounts, this`tagLinks
      ensures Valid()
      ensures amounts == (if clear then RowsNotOf(old(amounts), recipe) else old(amounts))
                         + RowsFor(recipe, ingredients)
      ensures tagLinks == TagLinksAfterSet(old(tagLinks), recipe, tags)
    {
      if clear {
        amounts := RowsNotOf(amounts, recipe);
      }
      ghost var base := amounts;
      var i := 0;
      while i < |ingredients|
        invariant 0 <= i <= |ingredients|
        invariant amounts == base + RowsFor(recipe, ingredients[..i])
        invariant forall j :: 0 <= j < |amounts| ==> amounts[j].recipe in recipes
        invariant tagLinks == old(tagLinks)
      {
        assert ingredients[..i + 1][..i] == ingredients[..i];
        amounts := amounts + [AmountRow(recipe, ingredients[i].ingredient, ingredients[i].amount)];
        i := i + 1;
      }
      assert ingredients[..i] == ingredients;
      // `recipe.tags.set(tags, clear=clear)`: either way the recipe ends with exactly `tags`.
      tagLinks := TagLinksAfterSet(tagLinks, recipe, tags);
    }

    /** `RecipeSerializer.create`: a new recipe with one amount row per entry;
        no existing row is deleted. */
    method Create(author: UserId, fields: RecipeFields, ingredients: seq<AmountEntry>, tags: seq<TagId>)
      returns (recipe: RecipeId)
      requires Valid()
      modifies this
      ensures Valid()
      ensures recipe !in old(recipes) && recipes == old(recipes)[recipe := RecipeRecord(author, fields)]
      ensures amounts == old(amounts) + RowsFor(recipe, ingredients)
      ensures tagLinks == TagLinksAfterSet(old(tagLinks), recipe, tags)
    {
      recipe := nextId;
      recipes := recipes[recipe := RecipeRecord(author, fields)];
      nextId := nextId + 1;
      SetM2MFields(recipe, ingredients, tags, false);
    }

    /** `RecipeSerializer.update`: the popped 'ingredients' and 'tags' keys
        must be present, or `pop` raises KeyError before anything is written.
        The scalar fields the request sends replace the stored ones, the
        recipe's amount rows are replaced by one row per entry, and its tags
        are replaced. */
    method Update(recipe: RecipeId, fields: FieldsUpdate,
                  ingredients: Option<seq<AmountEntry>>, tags: Option<seq<TagId>>)
      returns (keyError: Option<string>)
      requires Valid() && recipe in recipes
      modifies this`recipes, this`amounts, this`tagLinks
      ensures Valid()
      ensures keyError == if ingredients.None? then Some("ingredients")
                          else if tags.None? then Some("tags") else None
      ensures keyError.Some? ==>
        recipes == old(recipes) && amounts == old(amounts) && tagLinks == old(tagLinks)
      ensures keyError.None? ==>
        && recipes == old(recipes)[recipe := RecipeRecord(old(recipes)[recipe].author,
                                                          Merged(old(recipes)[recipe].fields, fields))]
        && amounts == RowsNotOf(old(amounts), recipe) + RowsFor(recipe, ingredients.value)
        && RowsOf(amounts, recipe) == RowsFor(recipe, ingredients.value)
        && (forall other :: other != recipe ==> RowsOf(amounts, other) == RowsOf(old(amounts), other))
        && tagLinks == TagLinksAfterSet(old(tagLinks), recipe, tags.value)
    {
      if ingredients.None? {
        return Some("ingredients");
      }
      if tags.None? {
        return Some("tags");
      }
      keyError := None;
      // `super().update`: set each sent attribute, then save.
      recipes := recipes[recipe := RecipeRecord(recipes[recipe].author, Merged(recipes[recipe].fields, fields))];
      SetM2MFields(recipe, ingredients.value, tags.value, true);
      WriteIsScoped(old(amounts), recipe, ingredients.value, true, recipe);
      forall other | other != recipe
        ensures RowsOf(amounts, other) == RowsOf(old(amounts), other)
      {
        WriteIsScoped(old(amounts), recipe, ingredients.value, true, other);
      }
    }
  }

  /** `recipes_limit` as `get_recipes` reads it: used only when present,
      non-empty and all digits (`int(limit) >= 0` then always holds). */
  function RecipesLimit(param: Option<string>): (limit: Option<nat>)
    ensures limit.Some? <==> param.Some? && IsDigitString(param.value)
    ensures limit.Some? ==> limit.value == ParseDigits(param.value)
  {
    if param.Some? && IsDigitString(param.value) then Some(ParseDigits(param.value)) else None
  }

  /** `instance.recipes.all()[:n]` or `[:None]`. */
  function GetRecipes<T>(recipes: seq<T>, param: Option<string>): (r: seq<T>)
    ensures |r| <= |recipes| && r == recipes[..|r|]
    ensures |r| == match RecipesLimit(param)
                   case Some(n) => Min(n, |recipes|)
                   case None => |recipes|
  {
    match RecipesLimit(param)
    case None => recipes
    case Some(n) => if n <= |recipes| then recipes[..n] else recipes
  }

  /** A decimal limit n yields the first min(n, count) recipes, in order. */
  lemma DecimalLimitTakesPrefix<T>(recipes: seq<T>, n: nat)
    ensures GetRecipes(recipes, Some(NatToString(n))) == recipes[..Min(n, |recipes|)]
  {
    ParseNatToString(n);
  }

  /** A missing or non-numeric limit yields every recipe. */
  lemma NonNumericLimitTakesAll<T>(recipes: seq<T>, param: Option<string>)
    requires param.None? || !IsDigitString(param.value)
    ensures GetRecipes(recipes, param) == recipes
  {
  }
}
