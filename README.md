# foodgram backend core, modelled in Dafny

Foodgram is a recipe-sharing web service. Its API lets users:

- publish recipes with ingredients, amounts, tags and an image sent as a Base64 data URI;
- subscribe to authors;
- mark favourites;
- search ingredients by name.

This project models the rules the backend itself enforces:

- **validators.dfy** (`Validators`): the tag colour and slug patterns and the minimum cooking time and ingredient amount.
- **users.dfy** (`Users`):
  - the User table's field rules and unique columns;
  - the Subscribe table's unique and self-follow constraints;
  - the order in which the database reports a violated constraint.
- **recipe_models.dfy** (`Recipes`): the Ingredient and Tag rows and their `__str__` texts.
- **views.dfy** (`Views`):
  - the subscribe action of the user view set, as a class over the User and Subscribe tables;
  - the favorite action of the recipe view set, as written and corrected.
- **serializers.dfy** (`Serializers`):
  - the duplicate-ingredient check, as the source's removal loop;
  - writing a recipe's ingredient amounts and tags on create and update, as a class over the tables;
  - the `recipes_limit` cap on a subscription's recipe preview.
- **base64.dfy** (`Base64`) and **fields.dfy** (`ImageField`): the image field's data-URI pattern and its Base64 decoding, as written and corrected.
- **filters.dfy** (`Filters`): the ingredient name search, which returns prefix matches before contains-only matches.
- **permissions.dfy** (`Permissions`): the admin check and the author-or-admin-or-read-only object permission.
- **admin.dfy** (`Admin`): the admin formset check that a recipe has at least one ingredient.

These modules support the ones above:

- **text.dfy** (`Text`): ASCII character classes, decimal digits, slicing and case-insensitive search.
- **patterns.dfy** (`Patterns`): a greedy matcher for the anchored regular expressions the validators use.
- **wrappers.dfy** (`Wrappers`): `Option` and `Result`.

Database tables are values: maps, sets and sequences. A view's or serializer's state changes are methods of a class whose fields are those tables. A lookup by primary key is a map lookup. A unique constraint is a set or map invariant. An `IntegrityError` is a datatype naming the violated constraint's kind.

## Model

| member | source | states |
|---|---|---|
| Validators.HexColorLanguage | backend/foodgram_api/recipes/validators.py:14 | `^#[a-fA-F0-9]{6}\Z` accepts exactly `#` followed by six hex digits, with nothing after them |
| Validators.SlugLanguage | backend/foodgram_api/recipes/validators.py:15 | `^[-a-zA-Z0-9_]+$` accepts exactly a non-empty run of slug characters, optionally followed by one final newline |
| Validators.ValidateHexColor | backend/foodgram_api/recipes/validators.py:4-14 | passes iff the value is a hex colour; otherwise fails with HEX_COLOR_ERROR |
| Validators.ValidateSlug | backend/foodgram_api/recipes/validators.py:10-15 | passes iff the value is an accepted slug; otherwise fails with SLUG_ERROR |
| Validators.HexColorRejectsTrailingNewline | backend/foodgram_api/recipes/validators.py:14 | a value followed by a newline is never a valid colour |
| Validators.SlugAcceptsFinalNewline | backend/foodgram_api/recipes/validators.py:15 | a valid slug plus one newline is still accepted, unless the slug already ends in a newline |
| Validators.SlugRejectsForeignChar | backend/foodgram_api/recipes/validators.py:15 | any non-slug character, other than a single final newline, makes the slug fail |
| Validators.MinCookingTimeValidator | backend/foodgram_api/recipes/validators.py:18-20 | fails iff the time is below 1; the failure carries MIN_COOKING_TIME_ERROR |
| Validators.MinIngredientAmountValidator | backend/foodgram_api/recipes/validators.py:23-25 | fails iff the amount is below 1; the failure carries MIN_INGREDIENT_AMOUNT_ERROR |
| Users.UsernameLanguage | backend/foodgram_api/users/models.py:16 | `^[\w.@+-]+\Z` accepts exactly non-empty strings of word characters and `.@+-` |
| Users.UsersValid | backend/foodgram_api/users/models.py:8-32 | the User table's invariant: each row is keyed by its id and satisfies its field rules, and no two rows share a username or an email (`unique=True`) |
| Users.UsernameErrors | backend/foodgram_api/users/models.py:8-20 | an empty username reports only the blank error; otherwise "too long" appears iff it exceeds 150 characters, "invalid" iff it leaves the username pattern, "taken" iff another user has it; no error iff it is 1 to 150 pattern characters and not taken |
| Users.NameErrors | backend/foodgram_api/users/models.py:21-22 | a first or last name has no error iff it is 1 to 150 characters; an empty one reports only the blank error, a long one only the length error |
| Users.EmailErrors | backend/foodgram_api/users/models.py:23-32 | apart from email syntax, which is not modelled: an empty email reports only the blank error; otherwise "too long" appears iff it exceeds 254 characters and "taken" iff another user has it; no error iff it is 1 to 254 characters and not taken |
| Users.UserErrors | backend/foodgram_api/users/models.py:8-32 | a new user has no field error iff every field is within its length and pattern rules and neither the username nor the email is taken; each "taken" error appears iff that value is non-empty and in use |
| Users.InsertUserKeepsValid | backend/foodgram_api/users/models.py:8-32 | adding a user with no field errors keeps the table valid: ids match keys, fields are valid, usernames and emails are unique |
| Users.EmailIdentifiesUser | backend/foodgram_api/users/models.py:23-33 | in a valid table the email (USERNAME_FIELD) determines the user |
| Users.SubscriptionsValid | backend/foodgram_api/users/models.py:37-60 | the Subscribe table's invariant: every row joins two existing users (the foreign keys) and no one follows themself (the check constraint); a set of pairs makes the unique constraint hold |
| Users.InsertViolation | backend/foodgram_api/users/models.py:37-60 | a subscription insert succeeds iff the pair is not a self-follow, is new, and both users exist; a self-follow reports the check constraint; a duplicate pair reports the unique constraint |
| Users.InsertKeepsSubscriptionsValid | backend/foodgram_api/users/models.py:37-60 | a successful insert keeps every subscription a non-self pair of existing users |
| Users.SubscriptionsAfterUserDeleted | backend/foodgram_api/users/models.py:38-49 | deleting a user cascades to exactly the subscriptions that name them, as subscriber or author |
| Users.DeleteUserKeepsValid | backend/foodgram_api/users/models.py:37-49 | after the cascade, the users and subscriptions tables are still valid |
| Recipes.PkText | backend/foodgram_api/recipes/models.py:13-16 | `str(pk)` is "None" for an unsaved row; otherwise it is a decimal string that reads back as the key |
| Recipes.IngredientStr | backend/foodgram_api/recipes/models.py:3-16 | `INGREDIENT_STR.format(pk, name[:15], unit[:15])`: its length is the fixed text plus `str(pk)` plus at most 15 characters each of the name and the unit |
| Recipes.TagStr | backend/foodgram_api/recipes/models.py:4-27 | `TAG_STR.format(pk, name[:15], color, slug)`; its properties are stated by TagStrParts |
| Recipes.IngredientStrParts | backend/foodgram_api/recipes/models.py:3-16 | the text shows `min(len, 15)` leading characters of the name and of the unit; short values appear in full; the unit part ends the text |
| Recipes.TagStrParts | backend/foodgram_api/recipes/models.py:4-27 | only the name is cut to 15 characters; colour and slug end the text in full; the length is fixed text plus `min(len(name), 15)` plus colour and slug |
| Views.UserDirectory.CreateSubscription | backend/foodgram_api/api/views.py:78 | the insert adds the pair iff the database reports no violation, and reports exactly that violation |
| Views.UserDirectory.Subscribe | backend/foodgram_api/api/views.py:70-104 | unknown author: 404. An anonymous requester then raises AttributeError, since the view set declares no permission classes. DELETE: removes an existing pair (204), or answers 400 with the "not subscribed" text. POST on oneself: 400 with SELF_SUBSCRIBE_ERROR. POST of an existing pair: 400 with the "already subscribed" text. POST of a new pair: adds it (201, with the author). Any other integrity error is re-raised. Nothing else changes |
| Views.TakesDeleteBranch | backend/foodgram_api/api/views.py:165 | the branch test as written: the delete branch is taken iff the action name is 'DELETE' |
| Views.FavoriteNeverDeletes | backend/foodgram_api/api/views.py:165 | the routed action name "favorite" never equals 'DELETE', whereas the request's method name does for DELETE only |
| Views.FavoriteStore.CreateFavorite | backend/foodgram_api/api/views.py:168 | the insert adds the row unless the pair already exists, which reports the unique constraint |
| Views.FavoriteStore.DeleteFavorite | backend/foodgram_api/api/views.py:166 | the row is removed, and `found` says whether `get` would have found it |
| Views.FavoriteStore.FavoriteAsWritten | backend/foodgram_api/api/views.py:163-169 | unknown recipe: 404. An anonymous requester raises AttributeError. Otherwise, when the action name is not 'DELETE' (the case for both POST and DELETE), a new pair is added (201) and an existing one raises the unique IntegrityError |
| Views.FavoriteStore.Favorite | backend/foodgram_api/api/views.py:163-169 | the corrected action: unknown recipe 404; anonymous requester AttributeError; POST adds the pair (201) or raises on a duplicate; DELETE removes it (204) or raises ObjectDoesNotExist |
| Serializers.IngredientsOf | backend/foodgram_api/api/serializers.py:106-108 | the list of each entry's ingredient, in order |
| Serializers.Duplicated | backend/foodgram_api/api/serializers.py:106-111 | an ingredient is reported iff it occurs at least twice |
| Serializers.RemoveFirst | backend/foodgram_api/api/serializers.py:110 | `list.remove` takes away exactly one occurrence |
| Serializers.ValidateIngredients | backend/foodgram_api/api/serializers.py:105-118 | the removal loop accepts iff no ingredient repeats, and then returns the input unchanged; otherwise the error carries exactly the repeated ingredients |
| Serializers.LeftoverIsDuplicated | backend/foodgram_api/api/serializers.py:109-111 | after one removal per distinct ingredient, the leftovers are exactly the repeated ingredients |
| Serializers.DuplicatedMeansRepeated | backend/foodgram_api/api/serializers.py:105-118 | reported iff some two different positions hold the same ingredient |
| Serializers.ValidationIgnoresOrder | backend/foodgram_api/api/serializers.py:105-118 | reordering the entries changes neither the ingredient multiset nor the reported duplicates |
| Serializers.RowsFor | backend/foodgram_api/api/serializers.py:123-127 | one amount row per entry, in order, carrying the recipe, the ingredient and the amount |
| Serializers.RowsOf | backend/foodgram_api/api/serializers.py:121 | `recipe.amounts_of_ingredients.all()`: exactly the rows of that recipe |
| Serializers.RowsNotOf | backend/foodgram_api/api/serializers.py:121 | what the delete leaves: exactly the rows of other recipes |
| Serializers.WriteIsScoped | backend/foodgram_api/api/serializers.py:120-128 | after the optional delete and the creates, the recipe's rows are its old rows (none when clearing) plus the new ones; every other recipe's rows are unchanged |
| Serializers.TagLinksAfterSet | backend/foodgram_api/api/serializers.py:128 | `tags.set`: the recipe is linked to exactly the given tags; other recipes' links are unchanged |
| Serializers.RecipeStore.SetM2MFields | backend/foodgram_api/api/serializers.py:120-128 | the amount rows are the old rows, minus the recipe's own when clearing, plus one per entry; the tag links are as TagLinksAfterSet; integrity is kept |
| Serializers.RecipeStore.Create | backend/foodgram_api/api/serializers.py:130-135 | a fresh recipe is added with its author and fields; its rows are appended and its tags set; nothing else changes |
| Serializers.Merged | backend/foodgram_api/api/serializers.py:140 | `super().update`: a field that is not sent keeps its stored value; a full update replaces every field; an empty update keeps the record |
| Serializers.RecipeStore.Update | backend/foodgram_api/api/serializers.py:137-142 | a missing 'ingredients' key, then a missing 'tags' key, raises KeyError and changes nothing. Otherwise the sent fields are merged in and the author kept; the recipe's rows become exactly the new entries; every other recipe's rows are unchanged; its tags are set |
| Serializers.RecipesLimit | backend/foodgram_api/api/serializers.py:161-164 | the limit applies iff the parameter is present and all digits, and then equals its decimal value |
| Serializers.GetRecipes | backend/foodgram_api/api/serializers.py:160-167 | the preview is a prefix of the author's recipes, of length `min(limit, count)`, or all of them when no limit applies |
| Serializers.DecimalLimitTakesPrefix | backend/foodgram_api/api/serializers.py:160-167 | limit `str(n)` gives the first `min(n, count)` recipes |
| Serializers.NonNumericLimitTakesAll | backend/foodgram_api/api/serializers.py:160-167 | a missing or non-numeric limit gives every recipe |
| Base64.B64Decode | backend/foodgram_api/api/fields.py:22 | `b64decode` of data characters and pads fails iff the data length is 1 more than a multiple of 4, or a 2- or 3-character tail lacks its pads; on success it gives the decoded bytes |
| Base64.EncodeDataLength | backend/foodgram_api/api/fields.py:22 | the standard encoding has four characters per three bytes and two or three for a final group of one or two bytes |
| Base64.DecodeDataLength | backend/foodgram_api/api/fields.py:22 | decoding gives three bytes per full quad and one or two for a final group of two or three characters |
| Base64.EncodingIsDecodable | backend/foodgram_api/api/fields.py:22 | a standard encoding always carries the pads its data length needs |
| Base64.DecodeEncodeData | backend/foodgram_api/api/fields.py:22 | decoding the standard encoding of any byte string gives the bytes back |
| Base64.B64DecodeEncode | backend/foodgram_api/api/fields.py:22 | `b64decode(b64encode(b)) == b` for every byte string |
| ImageField.MatchDataUri | backend/foodgram_api/api/fields.py:11-16 | a match's groups (extension, data, pads) compose the input, with at most one final newline, under the pattern's character classes |
| ImageField.MatchDataUriComplete | backend/foodgram_api/api/fields.py:11-16 | every data URI is matched, with exactly its own groups |
| ImageField.ToInternalValue | backend/foodgram_api/api/fields.py:10-27 | a non-URI is invalid; a URI is accepted iff its payload decodes, and then the file is `image.<ext>`, holds the decoded bytes and has type `image/<ext>` |
| ImageField.AsWrittenAcceptsOnlyDoublePadded | backend/foodgram_api/api/fields.py:11-26 | as written, a standard encoding of n > 0 bytes is accepted iff n mod 3 = 1, and then the file holds the original bytes |
| ImageField.EncodeOfABC | backend/foodgram_api/api/fields.py:22 | the bytes "ABC" encode to "QUJD", with no pads |
| ImageField.AsWrittenRejectsUnpadded | backend/foodgram_api/api/fields.py:14 | `data:image/png;base64,QUJD` (the bytes "ABC") is rejected as written |
| ImageField.CorrectedAcceptsEveryEncoding | backend/foodgram_api/api/fields.py:11-26 | with `={0,2}`, every standard encoding of a non-empty image round-trips to its bytes |
| ImageField.CorrectedExtendsAsWritten | backend/foodgram_api/api/fields.py:14 | the corrected field accepts everything the original accepts, giving the same file |
| Patterns.Matches | backend/foodgram_api/recipes/validators.py:14-15 | what `RegexValidator` computes for an anchored pattern; the language of each pattern is stated by HexColorLanguage, SlugLanguage and UsernameLanguage |
| Filters.Select | backend/foodgram_api/api/filters.py:10-12 | `filter` keeps exactly the rows satisfying the lookup and never adds any |
| Filters.FilterName | backend/foodgram_api/api/filters.py:9-17 | the search as the union of the start group and the contains-only group: every result row comes from the queryset, and the result begins with the whole start group |
| Filters.FilterNameMembers | backend/foodgram_api/api/filters.py:10-17 | a row is returned iff its name contains the value case-insensitively |
| Filters.FilterNameSound | backend/foodgram_api/api/filters.py:10-15 | every returned name contains the value case-insensitively |
| Filters.FilterNameDistinct | backend/foodgram_api/api/filters.py:13-16 | a queryset without repeats gives a result without repeats |
| Filters.FilterNameOrder | backend/foodgram_api/api/filters.py:10-17 | the rows whose name starts with the value come first; after them come only rows that contain it without starting with it |
| Permissions.IsAdmin | backend/foodgram_api/api/permissions.py:6-8 | true iff the user is signed in and staff; never for an anonymous user |
| Permissions.HasPermission | backend/foodgram_api/api/permissions.py:11-13 | `IsAuthenticatedOrReadOnly`, the inherited view check: safe methods always pass, other methods pass iff the user is signed in |
| Permissions.HasObjectPermission | backend/foodgram_api/api/permissions.py:14-19 | safe methods are always granted, as is anything by the author or by staff; an unsafe method is refused iff the user is anonymous, or neither the author nor staff |
| Permissions.AnonymousOnlyReads | backend/foodgram_api/api/permissions.py:6-19 | both checks refuse an anonymous user exactly the unsafe methods |
| Admin.FilledCount | backend/foodgram_api/recipes/admin.py:13-16 | the number of forms with non-empty cleaned data, at most the number of forms |
| Admin.FilledCountZero | backend/foodgram_api/recipes/admin.py:13-18 | the count is zero iff no form is filled in |
| Admin.Clean | backend/foodgram_api/recipes/admin.py:8-18 | the counting loop fails with INGREDIENTS_COUNT_ERROR iff no form has cleaned data; an empty formset fails as well; the forms are not changed |

## Left out

- PDF shopping-list rendering (`api/utils.py`), the bulk ingredient import command, migrations, URL routing and the `ModelAdmin` declarations: none of these is part of this model.
- Password handling and other framework-provided views (djoser's create and set-password flows): none of these is part of this model.
- Response bodies are shown as the entity they serialize, not as JSON. `to_representation` and the read serializers just choose a serializer class.
- The final image check by the framework's own `ImageField` (Pillow) is not modelled. `ImageField.ToInternalValue` returns the file that is handed to it.
- Character classes are ASCII. Python's Unicode `\w`, Unicode `str.isdigit` and the database's case folding for `istartswith`/`icontains` are not modelled.
- Users.EmailErrors: email syntax checking (`EmailValidator`) is not modelled; only blankness, length and uniqueness are. Users.UserErrors inherits this.
- Users.UserErrors: the username length limit of 150 comes from the model field, and the email limit of 254 from the framework's default.
- Users.InsertViolation: the database's error text is reduced to the violated constraint's kind. The check-before-unique-before-foreign-key order is an assumption about how the database reports several violations at once.
- Views.UserDirectory.Subscribe: the view set declares no permission classes, so an anonymous request reaches the action, and the model raises AttributeError for it. Default permission classes in the project settings could stop it earlier; the settings are not part of this model. A signed-in requester may be missing from the table; that is the only way to get the re-raised IntegrityError.
- Views.FavoriteStore.FavoriteAsWritten: the Favorite model is not part of this model. Its unique (user, recipe) pair is an assumption, and it is what makes a repeated POST raise IntegrityError.
- Serializers.ValidateIngredients: the error text (`SAME_INGREDIENTS_ERROR`) is reduced to the set of repeated ingredients. The constant is imported from `recipes/admin.py` but not defined in the version modelled here. Set iteration order does not affect the result, and the model proves so.
- Serializers.RecipeStore.Create: `RecipeViewSet.create` calls `serializer.save()` with no author, and `author` is not among the serializer's fields, so the shown code passes no author to `Recipe.objects.create`. The Recipe model is not part of this model; the `author` parameter assumes it gets one from elsewhere.
- Serializers.RecipeStore.Update: the `ingredients` and `tags` field values are taken as already validated; a wrong id or a failed nested validation is not modelled.
- ImageField.ToInternalValue: `data` is a string. A non-string JSON value makes `re.match` raise TypeError rather than fail with 'invalid'; that path is not modelled.
- Filters.FilterNameOrder: SQL does not promise that `UNION ALL` lists the first operand's rows first. The lemma models the evident intent, with each group in queryset order. `order_by(*_meta.ordering)` has no effect, because Ingredient declares no ordering.
- Filters.FilterNameDistinct: SQL `EXCEPT` also removes repeats inside the contains group. The model assumes the queryset has no repeated rows, which holds for a table queried by primary key.
- Views.FavoriteStore.Favorite: the code has no handler for a duplicate favourite or for removing a missing one, so the IntegrityError or ObjectDoesNotExist leaves the view; no 400 answer is modelled there.
- Database transactions, concurrency and `annotate(Count(...))` are not modelled. A recipe's author is kept as an id.

## Findings

| source | as written | input that shows it | evidently intended | confidence | as-written member | corrected member |
|---|---|---|---|---|---|---|
| backend/foodgram_api/api/views.py:165 | `if self.action == 'DELETE'`: the action name is 'favorite', so the delete branch never runs | DELETE /recipes/1/favorite/ by a user who has favorited recipe 1: the view tries to create the row again and raises an uncaught IntegrityError instead of answering 204 | branch on `self.request.method == 'DELETE'`, as `subscribe` does | high; not executed | Views.FavoriteStore.FavoriteAsWritten, with Views.FavoriteNeverDeletes | Views.FavoriteStore.Favorite |
| backend/foodgram_api/api/fields.py:14 | the payload must end in exactly `==`, so only encodings of n bytes with n mod 3 = 1 are accepted | `data:image/png;base64,QUJD` (three bytes, no padding) is rejected as invalid | `[A-Za-z0-9+\/]+={0,2}`, the padding a standard encoding has | high; not executed | ImageField.AsWrittenRejectsUnpadded, with ImageField.AsWrittenAcceptsOnlyDoublePadded | ImageField.CorrectedAcceptsEveryEncoding |
