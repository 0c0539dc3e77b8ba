# Foodgram recipe store, modelled in Dafny

This project models the core of the foodgram backend, a recipe-sharing service built on a
relational store. The store has users, tags, ingredients and recipes. Amount rows say how much
of an ingredient a recipe needs. There are three user relations: favourites, the shopping cart
and subscriptions to authors. The model covers the rules the application enforces on that store
and proves properties of them:

- `Models` (`models.dfy`) holds the tables as one value `Db`. It states every declared constraint
  as the predicate `Consistent`: unique columns and pairs, positive small integers bounded by
  `MIN_VALUE`/`MAX_VALUE`, a non-empty recipe name and no self-subscription. It defines the
  cascading deletes of users, recipes, ingredients and tags, and proves that each cascade keeps
  the store consistent.
- `Views.Store` (`views.dfy`) is a class with one field per table. Its methods are the request
  handlers:
  - subscribe and unsubscribe;
  - add and remove a favourite or cart entry;
  - create, update and delete a recipe;
  - download the shopping list;
  - the constrained inserts and the cascading deletes.

  Each method keeps `Valid()` (the consistency invariant plus the id counters). Its postcondition
  gives the response code for every branch and the exact new contents of the tables.
- `Serializers` (`serializers.dfy`) holds the write-side validation:
  - recipe input: field errors first, then empty or repeated ingredients and tags;
  - subscription requests;
  - favourite and cart requests.
- `ShoppingList` (`shopping_list.dfy`) does the export, the one real algorithm of the core. It
  joins the cart with the amount rows, groups them by (ingredient name, unit), sums the amounts,
  orders the rows by name and renders tab- and newline-joined text. A parser is its partner, and
  the project proves that parsing the rendered text gives back the rows.
- `Filters` (`filters.dfy`) holds the ingredient-name and recipe query filters.
- `Permissions` (`permissions.dfy`) holds the author-or-read-only rule.
- `Usernames` (`usernames.dfy`) holds the username pattern.
- `Common` (`common.dfy`) holds the shared types (`Option`, `Result`) and the sequence helpers
  (`Filter`, `Distinct`, `Count`).

Some inputs come from outside the core and are parameters:
- `MIN_VALUE` and `MAX_VALUE` come from a constants module that is not part of this model. They
  are the parameter `Bounds`, with `0 <= min <= max <= 32767`.
- The authenticated requester is a parameter (`Requester`: anonymous or a user id). `Known`
  requires that a logged-in requester exists in the store.
- New primary keys are taken from per-table counters.

## Model

| member | source | states |
|---|---|---|
| Usernames.UsernameCharacterised | backend/users/models.py:49-58 | A username is valid iff all of these hold: it is non-empty; it starts and ends with an ASCII letter or digit; it has only letters, digits and `_ . -`; no two separators are adjacent. Both directions are proved. |
| Usernames.RepeatedGroupsShape | backend/users/models.py:51 | The group `([_.-]?[a-zA-Z0-9])*` matches exactly the well-separated texts over that alphabet that do not end in a separator. |
| Usernames.AsWrittenAcceptsTrailingNewline | backend/users/models.py:49-58 | The validator as written accepts a username iff it is well-formed, or it is a well-formed username followed by one newline. Well-formedness is stated character by character, not by the regex. |
| Usernames.NewlineCounterexample | backend/users/models.py:51 | "ann\n" passes the validator as written but is not a valid username. |
| Models.RecipeCascade | backend/recipes/models.py:160-165 | Deleting a recipe removes exactly that key. Of the amount, favourite and cart rows, exactly those on the recipe go. Every other table and row is unchanged. |
| Models.UserCascade | backend/recipes/models.py:99-105 | Deleting a user removes the user and exactly their recipes. It removes the amount rows of those recipes; the favourite and cart rows of the user or on their recipes; and every subscription where they follow or are followed. Tags and ingredients are unchanged. |
| Models.IngredientCascade | backend/recipes/models.py:167-172 | Deleting an ingredient removes it and exactly the amount rows that use it. Nothing else changes. |
| Models.TagCascade | backend/recipes/models.py:125-131 | Deleting a tag removes it from the tag table and from every recipe's tag set. The recipe keys and every other field are unchanged. |
| Models.RecipeCascadeConsistent | backend/recipes/models.py:217-222 | A recipe cascade keeps every declared constraint. In particular, no amount, favourite or cart row is left pointing at the deleted recipe, and the relations stay free of duplicate pairs. |
| Models.UserCascadeConsistent | backend/recipes/models.py:211-216 | A user cascade keeps every declared constraint, including referential integrity of recipes, amount rows, relations and subscriptions. |
| Models.UserCascadeLeavesNoTrace | backend/users/models.py:78-89 | After a user is deleted, no recipe, favourite, cart row or subscription refers to them, as follower or as author. |
| Models.IngredientCascadeConsistent | backend/recipes/models.py:167-172 | An ingredient cascade keeps every declared constraint. |
| Models.TagCascadeConsistent | backend/recipes/models.py:125-131 | A tag cascade keeps every declared constraint: every recipe's tags still exist. |
| Permissions.SafeAlwaysPermitted | backend/api/permissions.py:23-39 | GET, HEAD and OPTIONS pass both the view-level and the object-level check, for anyone. |
| Permissions.UnsafeNeedsLogin | backend/api/permissions.py:23 | A write passes the view-level check iff someone is logged in. |
| Permissions.UnsafeNeedsAuthor | backend/api/permissions.py:38-42 | A write passes the object-level check iff the object's author sent it. |
| Permissions.ObjectImpliesView | backend/api/permissions.py:23-42 | Passing the object-level check implies passing the view-level one. |
| Filters.Fold | backend/api/filters.py:12 | ASCII capitals fold to their lower-case letter. A folded character is an ASCII lower-case letter iff the input was an ASCII letter. |
| Filters.IngredientFilter | backend/api/filters.py:8-16 | The `name` text is stripped first. A text holding a NUL character is refused (400). A missing or blank text keeps the listing. Otherwise an ingredient stays iff it was listed and its name starts with the stripped text, ignoring case. |
| Filters.StrippedSearchExample | backend/api/filters.py:12 | The search " Mi" is stripped to "Mi" and keeps "Milk". |
| Filters.BlankSearchExample | backend/api/filters.py:12 | The blank search " " keeps the whole listing. |
| Filters.TagsFilter | backend/api/filters.py:24-29 | No slugs keeps the listing. Otherwise a recipe stays iff it was listed and one of its tags has a listed slug. |
| Filters.AuthorFilter | backend/api/filters.py:35-42 | No author keeps the listing. Otherwise a recipe stays iff it was listed and has that author. An author id naming no user is refused in Filters.RecipeListing. |
| Filters.MarkFilter | backend/api/filters.py:44-74 | With value true and a logged-in requester, a recipe stays iff it was listed and the requester's pair is in the relation. Otherwise the listing is unchanged. In every case the result is a subset of the input. |
| Filters.RecipeFilterSelects | backend/api/filters.py:19-42 | The filters combine by AND: a recipe is in the result iff it was in the input and passes every filter the query sets. The result is no longer than the input. |
| Filters.RecipeListing | backend/api/filters.py:19-42 | The query is refused (400) iff it names a tag slug that no tag has, or an author id that no user has. Otherwise a recipe is listed iff it was in the input and passes every filter the query sets. |
| Filters.PrefixExample | backend/api/filters.py:12 | "Mi" matches "Milk" and "milk powder" but not "Almond Milk". |
| Common.DistinctIffSetSize | backend/api/serializers.py:318-330 | `len(set(xs)) == len(xs)` holds iff no element of `xs` repeats. |
| Common.StripSpec | backend/recipes/models.py:86-98 | The stripped text neither starts nor ends with whitespace. It is empty iff the input is all whitespace. |
| Serializers.ValidateRecipe | backend/api/serializers.py:306-331 | On success: the ingredient and tag lists are present, non-empty and free of repeats; every referenced tag and ingredient exists; every amount and cooking time lies within the bounds; the image is not empty; a full write carries every field; the result is the input with name and text stripped, non-blank and free of NUL characters. A field error names exactly the fields that fail their own checks, and every such field makes validation fail with a field error. |
| Serializers.FieldProblems | backend/api/serializers.py:268-344 | A field is reported iff it fails its own check: a blank or NUL-holding name or text, an empty image, an out-of-bounds cooking time, an unknown tag, or an ingredient entry that is unknown or out of bounds. A missing field fails unless the update is partial. |
| Serializers.NoProblemsMeansSoundFields | backend/api/serializers.py:268-344 | With no field errors, every present field passed its own check, and a full write carries every field. |
| Serializers.NulInNameRejected | backend/api/serializers.py:306-331 | A name with a NUL character anywhere in it is refused as an error of the name field. |
| Serializers.EmptyIngredientsRejected | backend/api/serializers.py:313-317 | A missing or empty ingredients list is refused. When the fields are sound, the reported error is the empty-ingredients error. |
| Serializers.DuplicateIngredientsRejected | backend/api/serializers.py:318-321 | Two entries with the same ingredient id are refused. When the fields are sound, the error is the duplicate-ingredients error. |
| Serializers.BadTagsRejected | backend/api/serializers.py:322-330 | A missing, empty or repeating tag list is refused. |
| Serializers.EmptyImageRejected | backend/api/serializers.py:340-344 | An empty image is refused as an error of the image field. |
| Serializers.CookingTimeOutOfBounds | backend/api/serializers.py:284-291 | A cooking time outside `[MIN_VALUE, MAX_VALUE]` is refused as an error of that field. |
| Serializers.AmountOutOfBounds | backend/api/serializers.py:185-192 | An ingredient entry with an amount outside `[MIN_VALUE, MAX_VALUE]` is refused as an error of the ingredients field. |
| Serializers.ValidRequestAccepted | backend/api/serializers.py:306-331 | When the fields are sound and both lists are non-empty and free of repeats, validation succeeds. The checks refuse nothing else. |
| Serializers.ValidateSubscription | backend/api/serializers.py:111-122 | Succeeds iff the pair is new and the user is not the author. An existing pair is reported first, then a self-subscription. |
| Serializers.ValidateMark | backend/api/serializers.py:436-439 | Succeeds iff the recipe exists and the (user, recipe) pair is not yet in the relation. An unknown recipe and an existing pair get distinct errors. |
| ShoppingList.CartItems | backend/api/views.py:288-294 | An item is in the join iff it comes from an amount row whose recipe is in the user's cart, carrying that ingredient's name, unit and amount. |
| ShoppingList.AddItem | backend/api/views.py:291-296 | Adding an item adds its amount to the total of its (name, unit) group and to no other group. The groups present are the old ones plus the item's. |
| ShoppingList.Aggregate | backend/api/views.py:291-296 | The grouped rows cover exactly the (name, unit) pairs that occur among the items. Each pair's total is the sum of its items' amounts. |
| ShoppingList.AddItemKeepsOrder | backend/api/views.py:296 | Adding an item keeps the rows in name order with one row per (name, unit). |
| ShoppingList.AggregateOrdered | backend/api/views.py:295-296 | The grouped rows are in non-decreasing name order and hold one row per (name, unit). |
| ShoppingList.BeforeIrreflexive | backend/api/views.py:296 | No name comes before itself in the lexicographic order. |
| ShoppingList.BeforeTransitive | backend/api/views.py:296 | The name order is transitive. |
| ShoppingList.BeforeTotal | backend/api/views.py:296 | Any two different names are ordered one way or the other. |
| ShoppingList.BeforeAsymmetric | backend/api/views.py:296 | If one name comes before another, the second does not come before the first. |
| ShoppingList.CartItemsSum | backend/api/views.py:288-296 | For every (name, unit), the joined items sum to that group's sum taken directly over the amount rows. The join neither drops nor repeats a row. |
| ShoppingList.ShoppingListSpec | backend/api/views.py:288-297 | The export has exactly one row per (ingredient name, unit) used by a recipe in the requester's cart. Each row's amount is the sum of the amounts of every cart amount row in that group, each counted once. The rows are in name order. |
| ShoppingList.NatToString | backend/api/views.py:311 | `str(n)` for n >= 0: at least one character, all decimal digits, and no leading zero unless n is 0. |
| ShoppingList.IntToString | backend/api/views.py:311 | `str(i)`: digits and an optional minus sign, never ending in the sign. |
| ShoppingList.NatRoundTrip | backend/api/views.py:311 | Reading back `str(n)` gives n. |
| ShoppingList.IntRoundTrip | backend/api/views.py:311 | Reading back `str(i)` gives i, for negative i as well. |
| ShoppingList.SplitJoin | backend/api/views.py:310-312 | Splitting on a separator undoes joining parts that do not contain it. |
| ShoppingList.LineRoundTrip | backend/api/views.py:311 | A row renders as name, unit and amount joined by tabs, with no newline. Reading it back gives the row. |
| ShoppingList.RenderRoundTrip | backend/api/views.py:310-312 | When no name or unit holds a tab or newline, reading the rendered file gives back exactly the rows, in order. The text is empty iff there are no rows. |
| ShoppingList.RenderEndsWithDigit | backend/api/views.py:310-312 | A non-empty list ends with the last digit of its last amount, so there is no trailing newline. |
| ShoppingList.AggregateExample | backend/api/views.py:288-296 | Flour 100, salt 5 and flour 200 give two rows: flour 300, then salt 5. |
| ShoppingList.RenderExample | backend/api/views.py:310-312 | Those rows render as "flour\tg\t300\nsalt\tg\t5". |
| Views.RowsFor | backend/api/serializers.py:354-361 | One amount row per entry, in order, each carrying the recipe, the entry's ingredient and its amount. |
| Views.UpdateReplacesRows | backend/api/serializers.py:389-393 | After the update, the recipe's amount rows are exactly the new ones: no old row of the recipe survives, and other recipes' rows are kept. The count is the kept rows plus one per entry. |
| Views.DownloadAsWritten | backend/api/views.py:280-298 | The download as written answers 200 to a logged-in requester. |
| Views.DownloadAsWrittenFails | backend/api/views.py:148 | An anonymous GET passes the recipe views' permission rule, and the download as written then answers 500. |
| Views.EmptyRender | backend/api/views.py:310-312 | The rendered file is empty iff the list has no rows. |
| Views.Store.AddUser | backend/users/models.py:27-58 | A user is saved iff the username has the required shape and neither the email nor the username is taken. When saved, exactly that row is added under a fresh id; otherwise nothing changes. |
| Views.Store.AddTag | backend/recipes/models.py:53-70 | A tag is saved iff its name, colour and slug are all unused. When saved, exactly that row is added under a fresh id. |
| Views.Store.AddIngredient | backend/recipes/models.py:37-42 | An ingredient is saved iff no ingredient has the same (name, unit) pair. When saved, exactly that row is added under a fresh id. |
| Views.Store.DeleteUser | backend/users/models.py:78-89 | The store becomes the user cascade of the old store, and the invariant still holds. |
| Views.Store.DeleteIngredient | backend/recipes/models.py:167-172 | The store becomes the ingredient cascade of the old store, and the invariant still holds. |
| Views.Store.DeleteTag | backend/recipes/models.py:125-131 | The store becomes the tag cascade of the old store, and the invariant still holds. |
| Views.Store.SaveSubscription | backend/users/models.py:110-117 | The row is saved iff the user is not the author and the pair is new. When saved, exactly that pair is appended; otherwise nothing changes. |
| Views.Store.Subscribe | backend/api/views.py:53-73 | 401 without login. 404 for an unknown author, with no change. 400 for an existing pair, then 400 for oneself. Otherwise 201, with exactly that pair added. |
| Views.Store.Unsubscribe | backend/api/views.py:75-96 | 401 without login. 404 for an unknown author. 400 with no change when the pair is absent. When it is present: 204, and exactly that pair is removed, with every other pair's count unchanged. |
| Views.Store.AddMark | backend/api/views.py:166-190 | 401 without login. 400 for an unknown recipe or an existing pair, with no change. Otherwise 201; the pair is appended to that relation and is in it afterwards. |
| Views.Store.RemoveMark | backend/api/views.py:231-245 | 401 without login. 404 for an unknown recipe, touching no relation. 400 with no change when the pair is absent. When it is present: 204, and only the requester's pair is removed from that relation. Every other row keeps its count and the other relation is untouched. |
| Views.Store.CreateIngredients | backend/api/serializers.py:346-362 | The loop appends exactly one row per entry, in order; nothing else changes. |
| Views.Store.SaveNewRecipe | backend/api/serializers.py:364-378 | The new recipe gets a fresh id and the requester as author, and its tag set is the given tags. Exactly one amount row per entry is added. |
| Views.Store.CreateRecipe | backend/api/views.py:139-163 | 401 without login. 400 when validation fails, with no change. Otherwise 201, with the new recipe written as the validated data says. |
| Views.Store.SetTags | backend/api/serializers.py:389-390 | After `clear` then `set`, the recipe's tag set is exactly the new set. |
| Views.Store.ClearIngredients | backend/api/serializers.py:391 | Exactly the recipe's amount rows are deleted. |
| Views.Store.WriteFields | backend/api/serializers.py:394 | Every field the data carries is written to the row; absent fields keep their values. |
| Views.Store.SaveRecipeUpdate | backend/api/serializers.py:380-394 | The update replaces the tag set and the amount rows and writes the given fields. No other table changes. |
| Views.Store.UpdateRecipe | backend/api/views.py:139-163 | 401 without login, 404 for an unknown recipe, 403 for anyone but the author, and 400 on failed validation; none of these change anything. Otherwise 200 with the replacement written. |
| Views.Store.RemoveRecipe | backend/recipes/models.py:160-165 | The store becomes the recipe cascade of the old store, and the invariant still holds. |
| Views.Store.DeleteRecipe | backend/api/views.py:139-151 | 401, 404 and 403 as for update, with no change. Otherwise 204, and the recipe is deleted with its cascade. |
| Views.Store.DownloadShoppingCart | backend/api/views.py:280-315 | 401 and no body without login. Otherwise 200 with the rendered shopping list of the requester's cart; the body is empty iff the list has no rows. |

## Left out

- Text length limits (`max_length`) and the email format check are not modelled; names, emails, slugs and colours are unbounded strings.
- Filters.Fold: case folding covers ASCII and the basic Cyrillic block (U+0400..U+042F), not all of Unicode. The database collation is not modelled either.
- ShoppingList.Before: orders names by character code. The database may sort by its collation instead.
- ShoppingList.AggregateOrdered: states order by name only. The order among rows that share a name but differ in unit is not fixed by the code, and is left open.
- Query strings are not parsed: `is_favorited` and `is_in_shopping_cart` arrive as booleans, `author` as a user id, and `tags` as a list of slugs.
- Images are an opaque value, either empty or a file. Base64 decoding and file storage are not modelled.
- Read-side serializers and nested JSON, user registration, passwords and authentication are not modelled. The requester is a parameter.
- Timestamps (`pub_date`, `date_added`) and the default orderings built on them are not modelled.
- Error messages are reduced to the `Problem` and `RecipeError` codes.
- Transactions and concurrent requests are not modelled: each handler is one atomic step, and validation runs before any write.
- Pagination and the admin site are not modelled.
- Primary keys come from counters. The database's own id allocation is not modelled.
- ShoppingList.CartItems: joins each amount row once per recipe in the cart. This relies on the cart holding each (user, recipe) pair at most once, which the store invariant guarantees.
- Views.Store.Subscribe: the 500 branch after validation is unreachable. Validation already refuses the pairs that `save` would refuse.
- The subscriptions listing action and the plain read endpoints (list and retrieve) are not modelled. They only read.

## Findings

| source | as written | input that shows it | evidently intended | confidence | as-written member | corrected member |
|---|---|---|---|---|---|---|
| backend/users/models.py:51 | The regex validator searches with `^...$`. Python's `$` also matches just before a final newline. | The username "ann\n" passes the validator. | Only letters, digits and non-leading, non-adjacent `_ . -` are allowed, as the validator's message says. | medium, not executed | Usernames.NewlineCounterexample | Usernames.UsernameCharacterised |
| backend/api/views.py:280-298 | `download_shopping_cart` sets no permission class of its own, so the recipe views' author-or-read-only rule lets an anonymous GET through. Filtering the cart by the anonymous user then raises an error. | An anonymous GET of the download gets status 500. | Login is required: an anonymous request gets 401. | medium, not executed | Views.DownloadAsWrittenFails | Views.Store.DownloadShoppingCart |
