/**
 * The request handlers over the store: subscribing and unsubscribing, adding and removing
 * favourites and cart entries, creating, updating and deleting recipes, the shopping-list
 * download, and the inserts and deletes whose constraints and cascades the model declarations fix.
 */
module Views {
  import opened Common
  import opened Models
  import opened Permissions
  import opened Serializers
  import opened ShoppingList
  import Usernames

  datatype Response =
    | Ok
    | Created
    | NoContent
    | BadRequest(problem: Problem)
    | Unauthorized
    | Forbidden
    | NotFound
    | ServerError

  function StatusCode(r: Response): int {
    match r
    case Ok => 200
    case Created => 201
    case NoContent => 204
    case BadRequest(_) => 400
    case Unauthorized => 401
    case Forbidden => 403
    case NotFound => 404
    case ServerError => 500
  }

  /** The amount rows `create_ingredients` builds: one per entry, in order. */
  function RowsFor(id: RecipeId, items: seq<IngredientAmount>): (r: seq<AmountRow>)
    ensures |r| == |items|
    ensures forall i :: 0 <= i < |items| ==> r[i] == AmountRow(id, items[i].id, items[i].amount)
  {
    seq(|items|, i requires 0 <= i < |items| => AmountRow(id, items[i].id, items[i].amount))
  }

  /** The model-level update: every field the validated data carries is written to the row. */
  function ApplyFields(r: Recipe, v: RecipeData): Recipe {
    r.(name := v.name.GetOr(r.name),
       image := v.image.GetOr(r.image),
       text := v.text.GetOr(r.text),
       cookingTime := v.cookingTime.GetOr(r.cookingTime))
  }

  /**
   * Download as written: the view sets no permission class of its own, so the author-or-read-only
   * rule lets an anonymous GET through, and filtering the cart on an anonymous user fails with an
   * uncaught error.
   */
  function DownloadAsWritten(who: Requester): (r: Response)
    ensures who.Member? ==> r == Ok
  {
    if !HasPermission(Get, who) then Unauthorized
    else if who.Anonymous? then ServerError
    else Ok
  }

  /** The input that shows it: an anonymous request passes the permission check and gets status 500. */
  lemma DownloadAsWrittenFails()
    ensures HasPermission(Get, Anonymous)
    ensures StatusCode(DownloadAsWritten(Anonymous)) == 500
  {
  }

  /** The declared constraints, and every key below its table's next generated id. */
  predicate StoreOk(db: Db, b: Bounds, nextUser: nat, nextTag: nat, nextIngredient: nat, nextRecipe: nat) {
    && Consistent(db, b)
    && (forall k :: k in db.users ==> k < nextUser)
    && (forall k :: k in db.tags ==> k < nextTag)
    && (forall k :: k in db.ingredients ==> k < nextIngredient)
    && (forall k :: k in db.recipes ==> k < nextRecipe)
  }

  lemma UserCascadeOk(db: Db, b: Bounds, nu: nat, nt: nat, ni: nat, nr: nat, user: UserId)
    requires StoreOk(db, b, nu, nt, ni, nr)
    ensures StoreOk(UserCascade(db, user), b, nu, nt, ni, nr)
  {
    UserCascadeConsistent(db, b, user);
  }

  lemma RecipeCascadeOk(db: Db, b: Bounds, nu: nat, nt: nat, ni: nat, nr: nat, id: RecipeId)
    requires StoreOk(db, b, nu, nt, ni, nr)
    ensures StoreOk(RecipeCascade(db, id), b, nu, nt, ni, nr)
  {
    RecipeCascadeConsistent(db, b, id);
  }

  /** Writing a well-formed recipe row under an existing key, or under the next id, keeps the store sound. */
  lemma PutRecipeOk(db: Db, b: Bounds, nu: nat, nt: nat, ni: nat, nr: nat, id: RecipeId, r: Recipe)
    requires StoreOk(db, b, nu, nt, ni, nr)
    requires id in db.recipes || id == nr
    requires RecipeOk(r, db.users, db.tags, b)
    ensures StoreOk(db.(recipes := db.recipes[id := r]), b, nu, nt, ni, if id == nr then nr + 1 else nr)
  {
  }

  /** Dropping a recipe's amount rows keeps the store sound. */
  lemma DropRowsOk(db: Db, b: Bounds, nu: nat, nt: nat, ni: nat, nr: nat, id: RecipeId)
    requires StoreOk(db, b, nu, nt, ni, nr)
    ensures StoreOk(db.(amounts := Filter(db.amounts, (a: AmountRow) => a.recipe != id)), b, nu, nt, ni, nr)
  {
  }

  /** Adding amount rows that point at existing rows and carry amounts within the bounds keeps the store sound. */
  lemma AddRowsOk(db: Db, b: Bounds, nu: nat, nt: nat, ni: nat, nr: nat, rows: seq<AmountRow>)
    requires StoreOk(db, b, nu, nt, ni, nr)
    requires forall a :: a in rows ==> a.recipe in db.recipes && a.ingredient in db.ingredients && b.Contains(a.amount)
    ensures StoreOk(db.(amounts := db.amounts + rows), b, nu, nt, ni, nr)
  {
  }

  lemma PutUserOk(db: Db, b: Bounds, nu: nat, nt: nat, ni: nat, nr: nat, u: User)
    requires StoreOk(db, b, nu, nt, ni, nr)
    requires Usernames.IsValidUsername(u.username)
    requires forall k :: k in db.users ==> db.users[k].email != u.email && db.users[k].username != u.username
    ensures StoreOk(db.(users := db.users[nu := u]), b, nu + 1, nt, ni, nr)
  {
  }

  lemma PutTagOk(db: Db, b: Bounds, nu: nat, nt: nat, ni: nat, nr: nat, t: Tag)
    requires StoreOk(db, b, nu, nt, ni, nr)
    requires forall k :: k in db.tags ==> db.tags[k].name != t.name && db.tags[k].color != t.color && db.tags[k].slug != t.slug
    ensures StoreOk(db.(tags := db.tags[nt := t]), b, nu, nt + 1, ni, nr)
  {
  }

  lemma PutIngredientOk(db: Db, b: Bounds, nu: nat, nt: nat, ni: nat, nr: nat, i: Ingredient)
    requires StoreOk(db, b, nu, nt, ni, nr)
    requires forall k :: k in db.ingredients ==> db.ingredients[k] != i
    ensures StoreOk(db.(ingredients := db.ingredients[ni := i]), b, nu, nt, ni + 1, nr)
  {
  }

  /**
   * After an update the recipe's amount rows are exactly the new ones: none of its old rows
   * survives, and the rows of other recipes are kept.
   */
  lemma UpdateReplacesRows(amounts: seq<AmountRow>, id: RecipeId, items: seq<IngredientAmount>)
    ensures var rows := Filter(amounts, (a: AmountRow) => a.recipe != id) + RowsFor(id, items);
      && (forall a :: a in rows && a.recipe == id <==> a in RowsFor(id, items))
      && (forall a :: a in rows && a.recipe != id <==> a in amounts && a.recipe != id)
      && |rows| == |Filter(amounts, (a: AmountRow) => a.recipe != id)| + |items|
  {
  }

  lemma Overwrite<K, V>(m: map<K, V>, k: K, first: V, second: V)
    ensures m[k := first][k := second] == m[k := second]
  {
  }

  class Store {
    /** MIN_VALUE and MAX_VALUE. */
    const bounds: Bounds

    var users: map<UserId, User>
    var tags: map<TagId, Tag>
    var ingredients: map<IngredientId, Ingredient>
    var recipes: map<RecipeId, Recipe>
    var amounts: seq<AmountRow>
    var favorites: seq<Mark>
    var cart: seq<Mark>
    var subscriptions: seq<Follow>

    /** The next primary key of each table with generated ids. */
    var nextUserId: nat
    var nextTagId: nat
    var nextIngredientId: nat
    var nextRecipeId: nat

    /** The tables as one value. */
    function Snapshot(): Db
      reads this
    {
      Db(users, tags, ingredients, recipes, amounts, favorites, cart, subscriptions)
    }

    /** Every declared constraint holds and every key lies below its table's next id. */
    ghost predicate Valid()
      reads this
    {
      StoreOk(Snapshot(), bounds, nextUserId, nextTagId, nextIngredientId, nextRecipeId)
    }

    /** Authentication only ever yields a user that exists. */
    predicate Known(who: Requester)
      reads this
    {
      who.Member? ==> who.id in users
    }

    constructor(b: Bounds)
      requires b.Valid()
      ensures Valid()
      ensures bounds == b
      ensures Snapshot() == Db(map[], map[], map[], map[], [], [], [], [])
    {
      bounds := b;
      users, tags, ingredients, recipes := map[], map[], map[], map[];
      amounts, favorites, cart, subscriptions := [], [], [], [];
      nextUserId, nextTagId, nextIngredientId, nextRecipeId := 0, 0, 0, 0;
    }

    // -------------------------------------------------------------------------------------------
    // Inserts guarded by the declared constraints, and the cascading deletes

    /**
     * Saving a user: refused when the username does not have the required shape or the email or
     * username is taken.
     */
    method AddUser(u: User) returns (id: Option<UserId>)
      requires Valid()
      modifies this
      ensures Valid()
      ensures id.Some? <==>
        && Usernames.IsValidUsername(u.username)
        && forall k :: k in old(users) ==> old(users)[k].email != u.email && old(users)[k].username != u.username
      ensures id.None? ==> Snapshot() == old(Snapshot())
      ensures id.Some? ==> id.value !in old(users) && Snapshot() == old(Snapshot()).(users := old(users)[id.value := u])
    {
      if !Usernames.IsValidUsername(u.username) {
        return None;
      }
      if exists k :: k in users && (users[k].email == u.email || users[k].username == u.username) {
        return None;
      }
      PutUserOk(Snapshot(), bounds, nextUserId, nextTagId, nextIngredientId, nextRecipeId, u);
      id := Some(nextUserId);
      users := users[nextUserId := u];
      nextUserId := nextUserId + 1;
    }

    /** Saving a tag: refused when its name, colour or slug is taken. */
    method AddTag(t: Tag) returns (id: Option<TagId>)
      requires Valid()
      modifies this
      ensures Valid()
      ensures id.Some? <==>
        forall k :: k in old(tags) ==>
          old(tags)[k].name != t.name && old(tags)[k].color != t.color && old(tags)[k].slug != t.slug
      ensures id.None? ==> Snapshot() == old(Snapshot())
      ensures id.Some? ==> id.value !in old(tags) && Snapshot() == old(Snapshot()).(tags := old(tags)[id.value := t])
    {
      if exists k :: k in tags && (tags[k].name == t.name || tags[k].color == t.color || tags[k].slug == t.slug) {
        return None;
      }
      PutTagOk(Snapshot(), bounds, nextUserId, nextTagId, nextIngredientId, nextRecipeId, t);
      id := Some(nextTagId);
      tags := tags[nextTagId := t];
      nextTagId := nextTagId + 1;
    }

    /** Saving an ingredient: refused when the same (name, measurement unit) pair exists. */
    method AddIngredient(i: Ingredient) returns (id: Option<IngredientId>)
      requires Valid()
      modifies this
      ensures Valid()
      ensures id.Some? <==> forall k :: k in old(ingredients) ==> old(ingredients)[k] != i
      ensures id.None? ==> Snapshot() == old(Snapshot())
      ensures id.Some? ==>
        id.value !in old(ingredients) && Snapshot() == old(Snapshot()).(ingredients := old(ingredients)[id.value := i])
    {
      if exists k :: k in ingredients && ingredients[k] == i {
        return None;
      }
      PutIngredientOk(Snapshot(), bounds, nextUserId, nextTagId, nextIngredientId, nextRecipeId, i);
      id := Some(nextIngredientId);
      ingredients := ingredients[nextIngredientId := i];
      nextIngredientId := nextIngredientId + 1;
    }

    /** Writes every table of `db` back to the store; the id counters stay as they are. */
    method Load(db: Db)
      modifies this
      ensures Snapshot() == db
      ensures nextUserId == old(nextUserId) && nextTagId == old(nextTagId)
      ensures nextIngredientId == old(nextIngredientId) && nextRecipeId == old(nextRecipeId)
    {
      users, tags, ingredients, recipes := db.users, db.tags, db.ingredients, db.recipes;
      amounts, favorites, cart, subscriptions := db.amounts, db.favorites, db.cart, db.subscriptions;
    }

    /** Deleting a user and everything that cascades from it. */
    method DeleteUser(user: UserId)
      requires Valid() && user in users
      modifies this
      ensures Valid()
      ensures Snapshot() == UserCascade(old(Snapshot()), user)
    {
      var r := UserCascade(Snapshot(), user);
      UserCascadeOk(Snapshot(), bounds, nextUserId, nextTagId, nextIngredientId, nextRecipeId, user);
      Load(r);
    }

    /** Deleting an ingredient and the amount rows that use it. */
    method DeleteIngredient(id: IngredientId)
      requires Valid() && id in ingredients
      modifies this
      ensures Valid()
      ensures Snapshot() == IngredientCascade(old(Snapshot()), id)
    {
      IngredientCascadeConsistent(Snapshot(), bounds, id);
      var r := IngredientCascade(Snapshot(), id);
      Load(r);
    }

    /** Deleting a tag and its links to recipes. */
    method DeleteTag(id: TagId)
      requires Valid() && id in tags
      modifies this
      ensures Valid()
      ensures Snapshot() == TagCascade(old(Snapshot()), id)
    {
      TagCascadeConsistent(Snapshot(), bounds, id);
      var r := TagCascade(Snapshot(), id);
      Load(r);
    }

    // -------------------------------------------------------------------------------------------
    // Subscriptions

    /**
     * `Subscription.save`: a self-subscription raises before anything is written, and the unique
     * constraint refuses a second row for the same pair.
     */
    method SaveSubscription(f: Follow) returns (saved: bool)
      requires Valid() && f.user in users && f.author in users
      modifies this
      ensures Valid()
      ensures saved <==> f.user != f.author && f !in old(subscriptions)
      ensures !saved ==> Snapshot() == old(Snapshot())
      ensures saved ==> Snapshot() == old(Snapshot()).(subscriptions := old(subscriptions) + [f])
    {
      if f.user == f.author || f in subscriptions {
        return false;
      }
      DistinctAppend(subscriptions, f);
      subscriptions := subscriptions + [f];
      saved := true;
    }

    /**
     * POST to subscribe: 401 without login, 404 for an unknown author, 400 for an existing pair and
     * then for oneself, otherwise 201 with the pair added.
     */
    method Subscribe(who: Requester, author: UserId) returns (resp: Response)
      requires Valid() && Known(who)
      modifies this
      ensures Valid()
      ensures resp != Created ==> Snapshot() == old(Snapshot())
      ensures who.Anonymous? ==> resp == Unauthorized
      ensures who.Member? && author !in old(users) ==> resp == NotFound
      ensures who.Member? && author in old(users) && Follow(who.id, author) in old(subscriptions) ==>
        resp == BadRequest(AlreadySubscribed)
      ensures who.Member? && author in old(users) && Follow(who.id, author) !in old(subscriptions) && who.id == author ==>
        resp == BadRequest(SelfSubscription)
      ensures who.Member? && author in old(users) && Follow(who.id, author) !in old(subscriptions) && who.id != author ==>
        && resp == Created
        && Snapshot() == old(Snapshot()).(subscriptions := old(subscriptions) + [Follow(who.id, author)])
    {
      if who.Anonymous? {
        return Unauthorized;
      }
      if author !in users {
        return NotFound;
      }
      var v := ValidateSubscription(subscriptions, who.id, author);
      if v.Failure? {
        return BadRequest(v.error);
      }
      var saved := SaveSubscription(v.value);
      resp := if saved then Created else ServerError;
    }

    /**
     * DELETE to unsubscribe: 401 without login, 404 for an unknown author, 204 with exactly that
     * pair removed when it exists, otherwise 400.
     */
    method Unsubscribe(who: Requester, author: UserId) returns (resp: Response)
      requires Valid() && Known(who)
      modifies this
      ensures Valid()
      ensures resp != NoContent ==> Snapshot() == old(Snapshot())
      ensures who.Anonymous? ==> resp == Unauthorized
      ensures who.Member? && author !in old(users) ==> resp == NotFound
      ensures who.Member? && author in old(users) && Follow(who.id, author) !in old(subscriptions) ==>
        resp == BadRequest(NotSubscribed)
      ensures who.Member? && author in old(users) && Follow(who.id, author) in old(subscriptions) ==>
        && resp == NoContent
        && Snapshot() == old(Snapshot()).(subscriptions := Without(old(subscriptions), Follow(who.id, author)))
        && forall f :: Count(subscriptions, f) == if f == Follow(who.id, author) then 0 else Count(old(subscriptions), f)
    {
      if who.Anonymous? {
        return Unauthorized;
      }
      if author !in users {
        return NotFound;
      }
      var f := Follow(who.id, author);
      if f !in subscriptions {
        return BadRequest(NotSubscribed);
      }
      RemoveExactlyOne(subscriptions, f);
      subscriptions := Without(subscriptions, f);
      resp := NoContent;
    }

    // -------------------------------------------------------------------------------------------
    // Favourites and the shopping cart

    /**
     * POST to favourite a recipe or put it in the cart: 401 without login, 400 for an unknown
     * recipe or a pair already in the relation, otherwise 201 with the pair added.
     */
    method AddMark(kind: Relation, who: Requester, recipe: RecipeId) returns (resp: Response)
      requires Valid() && Known(who)
      modifies this
      ensures Valid()
      ensures resp != Created ==> Snapshot() == old(Snapshot())
      ensures who.Anonymous? ==> resp == Unauthorized
      ensures who.Member? && recipe !in old(recipes) ==> resp == BadRequest(UnknownRecipe)
      ensures who.Member? && recipe in old(recipes) && Mark(who.id, recipe) in old(Snapshot()).Marks(kind) ==>
        resp == BadRequest(AlreadyAdded)
      ensures who.Member? && recipe in old(recipes) && Mark(who.id, recipe) !in old(Snapshot()).Marks(kind) ==>
        && resp == Created
        && Snapshot() == old(Snapshot()).WithMarks(kind, old(Snapshot()).Marks(kind) + [Mark(who.id, recipe)])
        && Mark(who.id, recipe) in Snapshot().Marks(kind)
    {
      if who.Anonymous? {
        return Unauthorized;
      }
      var v := ValidateMark(Snapshot().Marks(kind), recipes.Keys, who.id, recipe);
      if v.Failure? {
        return BadRequest(v.error);
      }
      if kind == Favorites {
        DistinctAppend(favorites, v.value);
        favorites := favorites + [v.value];
      } else {
        DistinctAppend(cart, v.value);
        cart := cart + [v.value];
      }
      resp := Created;
    }

    /**
     * DELETE to unfavourite a recipe or take it out of the cart: 401 without login, 404 for an
     * unknown recipe, 204 with exactly the requester's pair removed from that relation when it is
     * there, otherwise 400.
     */
    method RemoveMark(kind: Relation, who: Requester, recipe: RecipeId) returns (resp: Response)
      requires Valid() && Known(who)
      modifies this
      ensures Valid()
      ensures resp != NoContent ==> Snapshot() == old(Snapshot())
      ensures who.Anonymous? ==> resp == Unauthorized
      ensures who.Member? && recipe !in old(recipes) ==> resp == NotFound
      ensures who.Member? && recipe in old(recipes) && Mark(who.id, recipe) !in old(Snapshot()).Marks(kind) ==>
        resp == BadRequest(NotInList)
      ensures who.Member? && recipe in old(recipes) && Mark(who.id, recipe) in old(Snapshot()).Marks(kind) ==>
        && resp == NoContent
        && Snapshot() == old(Snapshot()).WithMarks(kind, Without(old(Snapshot()).Marks(kind), Mark(who.id, recipe)))
        && forall m :: Count(Snapshot().Marks(kind), m) ==
             if m == Mark(who.id, recipe) then 0 else Count(old(Snapshot()).Marks(kind), m)
    {
      if who.Anonymous? {
        return Unauthorized;
      }
      if recipe !in recipes {
        return NotFound;
      }
      var m := Mark(who.id, recipe);
      if m !in Snapshot().Marks(kind) {
        return BadRequest(NotInList);
      }
      if kind == Favorites {
        RemoveExactlyOne(favorites, m);
        favorites := Without(favorites, m);
      } else {
        RemoveExactlyOne(cart, m);
        cart := Without(cart, m);
      }
      resp := NoContent;
    }

    // -------------------------------------------------------------------------------------------
    // Recipes

    /** `create_ingredients`: build one amount row per entry, then insert them all. */
    method CreateIngredients(id: RecipeId, items: seq<IngredientAmount>)
      requires Valid() && id in recipes
      requires forall x :: x in items ==> x.id in ingredients && bounds.Contains(x.amount)
      modifies this
      ensures Valid()
      ensures Snapshot() == old(Snapshot()).(amounts := old(amounts) + RowsFor(id, items))
    {
      var rows: seq<AmountRow> := [];
      for k := 0 to |items|
        invariant |rows| == k
        invariant forall i :: 0 <= i < k ==> rows[i] == AmountRow(id, items[i].id, items[i].amount)
      {
        rows := rows + [AmountRow(id, items[k].id, items[k].amount)];
      }
      assert rows == RowsFor(id, items);
      AddRowsOk(Snapshot(), bounds, nextUserId, nextTagId, nextIngredientId, nextRecipeId, rows);
      amounts := amounts + rows;
    }

    /**
     * `create`: insert the recipe row by `author` under the next id, set its tags, then add one
     * amount row per ingredient entry.
     */
    method SaveNewRecipe(author: UserId, data: RecipeData) returns (id: RecipeId)
      requires Valid()
      requires data.name.Some? && data.image.Some? && data.text.Some? && data.cookingTime.Some?
      requires data.tags.Some? && data.ingredients.Some?
      requires RecipeOk(Recipe(author, data.name.value, data.image.value, data.text.value, data.cookingTime.value,
                               Elements(data.tags.value)), users, tags, bounds)
      requires forall x :: x in data.ingredients.value ==> x.id in ingredients && bounds.Contains(x.amount)
      modifies this
      ensures Valid()
      ensures id !in old(recipes)
      ensures Snapshot() == old(Snapshot()).(
        recipes := old(recipes)[id := Recipe(author, data.name.value, data.image.value, data.text.value,
                                             data.cookingTime.value, Elements(data.tags.value))],
        amounts := old(amounts) + RowsFor(id, data.ingredients.value))
    {
      id := nextRecipeId;
      var row := Recipe(author, data.name.value, data.image.value, data.text.value, data.cookingTime.value, {});
      PutRecipeOk(Snapshot(), bounds, nextUserId, nextTagId, nextIngredientId, nextRecipeId, id, row);
      recipes := recipes[id := row];
      nextRecipeId := nextRecipeId + 1;
      SetTags(id, Elements(data.tags.value));
      Overwrite(old(recipes), id, row, row.(tags := Elements(data.tags.value)));
      CreateIngredients(id, data.ingredients.value);
    }

    /**
     * POST a recipe: 401 without login, 400 when validation fails, otherwise 201 with a new recipe
     * by the requester whose tag set is the given tags and whose amount rows are one per given
     * ingredient entry.
     */
    method CreateRecipe(who: Requester, d: RecipeData) returns (resp: Response, id: Option<RecipeId>)
      requires Valid() && Known(who)
      modifies this
      ensures Valid()
      ensures id.None? ==> Snapshot() == old(Snapshot())
      ensures who.Anonymous? ==> resp == Unauthorized && id.None?
      ensures who.Member? ==>
        var v := ValidateRecipe(d, false, bounds, old(tags.Keys), old(ingredients.Keys));
        && (v.Failure? ==> resp == BadRequest(InvalidRecipe(v.error)) && id.None?)
        && (v.Success? ==>
              && resp == Created && id.Some? && id.value !in old(recipes)
              && recipes == old(recipes)[id.value := Recipe(who.id, v.value.name.value, v.value.image.value,
                                                           v.value.text.value, v.value.cookingTime.value,
                                                           Elements(d.tags.value))]
              && amounts == old(amounts) + RowsFor(id.value, d.ingredients.value)
              && Snapshot() == old(Snapshot()).(recipes := recipes, amounts := amounts))
    {
      if !HasPermission(Post, who) {
        return Unauthorized, None;
      }
      var v := ValidateRecipe(d, false, bounds, tags.Keys, ingredients.Keys);
      if v.Failure? {
        return BadRequest(InvalidRecipe(v.error)), None;
      }
      var rid := SaveNewRecipe(who.id, v.value);
      resp, id := Created, Some(rid);
    }

    /**
     * `tags.clear()` then `tags.set(...)`: the recipe's tag set becomes exactly `t`, whatever it held
     * before. With the set held in the row, the clear is subsumed by the assignment.
     */
    method SetTags(id: RecipeId, t: set<TagId>)
      requires Valid() && id in recipes && t <= tags.Keys
      modifies this
      ensures Valid()
      ensures Snapshot() == old(Snapshot()).(recipes := old(recipes)[id := old(recipes)[id].(tags := t)])
    {
      var row := recipes[id].(tags := t);
      PutRecipeOk(Snapshot(), bounds, nextUserId, nextTagId, nextIngredientId, nextRecipeId, id, row);
      recipes := recipes[id := row];
    }

    /** `ingredients.clear()`: every amount row of the recipe is deleted. */
    method ClearIngredients(id: RecipeId)
      requires Valid()
      modifies this
      ensures Valid()
      ensures Snapshot() == old(Snapshot()).(amounts := Filter(old(amounts), (a: AmountRow) => a.recipe != id))
    {
      DropRowsOk(Snapshot(), bounds, nextUserId, nextTagId, nextIngredientId, nextRecipeId, id);
      amounts := Filter(amounts, (a: AmountRow) => a.recipe != id);
    }

    /** The model-level `update`: write every field the data carries. */
    method WriteFields(id: RecipeId, data: RecipeData)
      requires Valid() && id in recipes
      requires RecipeOk(ApplyFields(recipes[id], data), users, tags, bounds)
      modifies this
      ensures Valid()
      ensures Snapshot() == old(Snapshot()).(recipes := old(recipes)[id := ApplyFields(old(recipes)[id], data)])
    {
      PutRecipeOk(Snapshot(), bounds, nextUserId, nextTagId, nextIngredientId, nextRecipeId, id,
                  ApplyFields(recipes[id], data));
      recipes := recipes[id := ApplyFields(recipes[id], data)];
    }

    /**
     * `update`: replace the tags, drop every amount row of the recipe and add one per new
     * ingredient entry, then write the other fields the data carries.
     */
    method SaveRecipeUpdate(id: RecipeId, data: RecipeData)
      requires Valid() && id in recipes
      requires data.tags.Some? && data.ingredients.Some?
      requires RecipeOk(ApplyFields(recipes[id], data).(tags := Elements(data.tags.value)), users, tags, bounds)
      requires forall x :: x in data.ingredients.value ==> x.id in ingredients && bounds.Contains(x.amount)
      modifies this
      ensures Valid()
      ensures Snapshot() == old(Snapshot()).(
        recipes := old(recipes)[id := ApplyFields(old(recipes)[id], data).(tags := Elements(data.tags.value))],
        amounts := Filter(old(amounts), (a: AmountRow) => a.recipe != id) + RowsFor(id, data.ingredients.value))
    {
      SetTags(id, Elements(data.tags.value));
      ClearIngredients(id);
      CreateIngredients(id, data.ingredients.value);
      WriteFields(id, data);
    }

    /**
     * PUT (`partial` false) or PATCH a recipe: 401 without login, 404 for an unknown recipe, 403
     * for anyone but its author, 400 when validation fails, otherwise 200 with the tag set and the
     * amount rows replaced and every other field the request carries written.
     */
    method UpdateRecipe(who: Requester, id: RecipeId, d: RecipeData, partial: bool) returns (resp: Response)
      requires Valid() && Known(who)
      modifies this
      ensures Valid()
      ensures resp != Ok ==> Snapshot() == old(Snapshot())
      ensures who.Anonymous? ==> resp == Unauthorized
      ensures who.Member? && id !in old(recipes) ==> resp == NotFound
      ensures who.Member? && id in old(recipes) && old(recipes)[id].author != who.id ==> resp == Forbidden
      ensures who.Member? && id in old(recipes) && old(recipes)[id].author == who.id ==>
        var v := ValidateRecipe(d, partial, bounds, old(tags.Keys), old(ingredients.Keys));
        && (v.Failure? ==> resp == BadRequest(InvalidRecipe(v.error)))
        && (v.Success? ==>
              && resp == Ok
              && recipes == old(recipes)[id := ApplyFields(old(recipes)[id], v.value).(tags := Elements(d.tags.value))]
              && amounts == Filter(old(amounts), (a: AmountRow) => a.recipe != id) + RowsFor(id, d.ingredients.value)
              && Snapshot() == old(Snapshot()).(recipes := recipes, amounts := amounts))
    {
      var verb := if partial then Patch else Put;
      if !HasPermission(verb, who) {
        return Unauthorized;
      }
      if id !in recipes {
        return NotFound;
      }
      if !HasObjectPermission(verb, who, recipes[id].author) {
        return Forbidden;
      }
      var v := ValidateRecipe(d, partial, bounds, tags.Keys, ingredients.Keys);
      if v.Failure? {
        return BadRequest(InvalidRecipe(v.error));
      }
      SaveRecipeUpdate(id, v.value);
      resp := Ok;
    }

    /** `delete()` on a recipe row, with its cascade. */
    method RemoveRecipe(id: RecipeId)
      requires Valid() && id in recipes
      modifies this
      ensures Valid()
      ensures Snapshot() == RecipeCascade(old(Snapshot()), id)
    {
      var r := RecipeCascade(Snapshot(), id);
      RecipeCascadeOk(Snapshot(), bounds, nextUserId, nextTagId, nextIngredientId, nextRecipeId, id);
      Load(r);
    }

    /** DELETE a recipe: 401 without login, 404 for an unknown recipe, 403 for anyone but its author, else 204. */
    method DeleteRecipe(who: Requester, id: RecipeId) returns (resp: Response)
      requires Valid() && Known(who)
      modifies this
      ensures Valid()
      ensures resp != NoContent ==> Snapshot() == old(Snapshot())
      ensures who.Anonymous? ==> resp == Unauthorized
      ensures who.Member? && id !in old(recipes) ==> resp == NotFound
      ensures who.Member? && id in old(recipes) && old(recipes)[id].author != who.id ==> resp == Forbidden
      ensures who.Member? && id in old(recipes) && old(recipes)[id].author == who.id ==>
        resp == NoContent && Snapshot() == RecipeCascade(old(Snapshot()), id)
    {
      if !HasPermission(Delete, who) {
        return Unauthorized;
      }
      if id !in recipes {
        return NotFound;
      }
      if !HasObjectPermission(Delete, who, recipes[id].author) {
        return Forbidden;
      }
      RemoveRecipe(id);
      resp := NoContent;
    }

    // -------------------------------------------------------------------------------------------
    // The shopping-list download

    /**
     * GET the shopping list, with login required: 401 and no body without login, otherwise 200
     * with the rendered list of the requester's cart.
     */
    function DownloadShoppingCart(who: Requester): (r: (Response, string))
      reads this
      ensures who.Anonymous? ==> r == (Unauthorized, [])
      ensures who.Member? ==> r.0 == Ok && r.1 == Render(ShoppingLines(Snapshot(), who.id))
      ensures who.Member? ==> (r.1 == [] <==> ShoppingLines(Snapshot(), who.id) == [])
    {
      if who.Anonymous? then (Unauthorized, [])
      else
        var lines := ShoppingLines(Snapshot(), who.id);
        assert Render(lines) == [] <==> lines == [] by {
          EmptyRender(lines);
        }
        (Ok, Render(lines))
    }
  }

  /** A list renders to the empty text exactly when it has no rows. */
  lemma EmptyRender(lines: seq<Line>)
    ensures Render(lines) == [] <==> lines == []
  {
    if lines != [] {
      RenderEndsWithDigit(lines);
    }
  }
}
