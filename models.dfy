/**
 * The tables of the recipe store and the constraints their model declarations put on them:
 * unique columns and pairs, bounded integers, a non-empty recipe name, the self-subscription
 * guard, and referential integrity kept by cascading deletes.
 */
module Models {
  import opened Common
  import Usernames

  type UserId = nat
  type TagId = nat
  type IngredientId = nat
  type RecipeId = nat

  /** Largest value of a positive small integer column. */
  const SMALL_INT_MAX := 32767

  /**
   * The constants MIN_VALUE and MAX_VALUE that bound cooking times and ingredient amounts.
   * Both columns are positive small integers, so the bounds lie in their range.
   */
  datatype Bounds = Bounds(min: int, max: int) {
    predicate Valid() {
      0 <= min <= max <= SMALL_INT_MAX
    }

    predicate Contains(v: int) {
      min <= v <= max
    }
  }

  datatype User = User(email: string, username: string, firstName: string, lastName: string)

  datatype Tag = Tag(name: string, color: string, slug: string)

  datatype Ingredient = Ingredient(name: string, unit: string)

  /** An uploaded picture, or the empty value an image field may carry. */
  datatype Image = NoImage | Picture(file: string)

  /** A recipe row together with its many-to-many tag set. */
  datatype Recipe = Recipe(
    author: UserId,
    name: string,
    image: Image,
    text: string,
    cookingTime: int,
    tags: set<TagId>)

  /** An AmountIngredient row: how much of one ingredient a recipe needs. */
  datatype AmountRow = AmountRow(recipe: RecipeId, ingredient: IngredientId, amount: int)

  /** A Favorite or ShoppingCart row. */
  datatype Mark = Mark(user: UserId, recipe: RecipeId)

  /** A Subscription row: `user` follows `author`. */
  datatype Follow = Follow(user: UserId, author: UserId)

  /** The two user-recipe relations built on the same abstract base. */
  datatype Relation = Favorites | ShoppingCart

  datatype Db = Db(
    users: map<UserId, User>,
    tags: map<TagId, Tag>,
    ingredients: map<IngredientId, Ingredient>,
    recipes: map<RecipeId, Recipe>,
    amounts: seq<AmountRow>,
    favorites: seq<Mark>,
    cart: seq<Mark>,
    subscriptions: seq<Follow>)
  {
    function Marks(kind: Relation): seq<Mark> {
      if kind == Favorites then favorites else cart
    }

    /** The store with the rows of one relation replaced. */
    function WithMarks(kind: Relation, marks: seq<Mark>): Db {
      if kind == Favorites then this.(favorites := marks) else this.(cart := marks)
    }
  }

  /** Email and username are each unique, and every username has the required shape. */
  predicate UsersOk(users: map<UserId, User>) {
    && (forall u :: u in users ==> Usernames.IsValidUsername(users[u].username))
    && (forall u, v :: u in users && v in users && u != v ==>
          users[u].email != users[v].email && users[u].username != users[v].username)
  }

  /** Tag name, colour and slug are each unique. */
  predicate TagsOk(tags: map<TagId, Tag>) {
    forall s, t :: s in tags && t in tags && s != t ==>
      tags[s].name != tags[t].name && tags[s].color != tags[t].color && tags[s].slug != tags[t].slug
  }

  /** At most one ingredient per (name, measurement unit) pair. */
  predicate IngredientsOk(ingredients: map<IngredientId, Ingredient>) {
    forall i, j :: i in ingredients && j in ingredients && i != j ==> ingredients[i] != ingredients[j]
  }

  predicate RecipeOk(r: Recipe, users: map<UserId, User>, tags: map<TagId, Tag>, b: Bounds) {
    && r.author in users
    && |r.name| > 0
    && b.Contains(r.cookingTime)
    && r.tags <= tags.Keys
  }

  predicate RecipesOk(recipes: map<RecipeId, Recipe>, users: map<UserId, User>, tags: map<TagId, Tag>, b: Bounds) {
    forall id :: id in recipes ==> RecipeOk(recipes[id], users, tags, b)
  }

  predicate AmountsOk(amounts: seq<AmountRow>, recipes: map<RecipeId, Recipe>,
                      ingredients: map<IngredientId, Ingredient>, b: Bounds)
  {
    forall a :: a in amounts ==> a.recipe in recipes && a.ingredient in ingredients && b.Contains(a.amount)
  }

  /** A user-recipe relation: one row per pair, both ends present. */
  predicate MarksOk(marks: seq<Mark>, users: map<UserId, User>, recipes: map<RecipeId, Recipe>) {
    && Distinct(marks)
    && (forall m :: m in marks ==> m.user in users && m.recipe in recipes)
  }

  /** Subscriptions: one row per pair, both ends present, nobody follows themself. */
  predicate FollowsOk(follows: seq<Follow>, users: map<UserId, User>) {
    && Distinct(follows)
    && (forall f :: f in follows ==> f.user in users && f.author in users && f.user != f.author)
  }

  /** Every constraint the model declarations place on the store. */
  predicate Consistent(db: Db, b: Bounds) {
    && b.Valid()
    && UsersOk(db.users)
    && TagsOk(db.tags)
    && IngredientsOk(db.ingredients)
    && RecipesOk(db.recipes, db.users, db.tags, b)
    && AmountsOk(db.amounts, db.recipes, db.ingredients, b)
    && MarksOk(db.favorites, db.users, db.recipes)
    && MarksOk(db.cart, db.users, db.recipes)
    && FollowsOk(db.subscriptions, db.users)
  }

  /** Deleting a recipe: its amount rows and its favourite and cart rows go with it. */
  function RecipeCascade(db: Db, id: RecipeId): (r: Db)
    ensures r.recipes.Keys == db.recipes.Keys - {id}
    ensures forall k :: k in r.recipes ==> r.recipes[k] == db.recipes[k]
    ensures forall a :: a in r.amounts <==> a in db.amounts && a.recipe != id
    ensures forall m :: m in r.favorites <==> m in db.favorites && m.recipe != id
    ensures forall m :: m in r.cart <==> m in db.cart && m.recipe != id
    ensures r.users == db.users && r.tags == db.tags && r.ingredients == db.ingredients
    ensures r.subscriptions == db.subscriptions
  {
    db.(recipes := db.recipes - {id},
        amounts := Filter(db.amounts, (a: AmountRow) => a.recipe != id),
        favorites := Filter(db.favorites, (m: Mark) => m.recipe != id),
        cart := Filter(db.cart, (m: Mark) => m.recipe != id))
  }

  predicate AuthoredBy(recipes: map<RecipeId, Recipe>, id: RecipeId, user: UserId) {
    id in recipes && recipes[id].author == user
  }

  /**
   * Deleting a user: their recipes (with everything hanging off those), their own favourite and
   * cart rows, and every subscription in which they follow or are followed.
   */
  function UserCascade(db: Db, user: UserId): (r: Db)
    ensures r.users.Keys == db.users.Keys - {user}
    ensures forall k :: k in r.recipes <==> k in db.recipes && db.recipes[k].author != user
    ensures forall k :: k in r.recipes ==> r.recipes[k] == db.recipes[k]
    ensures forall a :: a in r.amounts <==> a in db.amounts && !AuthoredBy(db.recipes, a.recipe, user)
    ensures forall m :: m in r.favorites <==>
      m in db.favorites && m.user != user && !AuthoredBy(db.recipes, m.recipe, user)
    ensures forall m :: m in r.cart <==>
      m in db.cart && m.user != user && !AuthoredBy(db.recipes, m.recipe, user)
    ensures forall f :: f in r.subscriptions <==> f in db.subscriptions && f.user != user && f.author != user
    ensures r.tags == db.tags && r.ingredients == db.ingredients
  {
    db.(users := db.users - {user},
        recipes := RecipesNotBy(db.recipes, user),
        amounts := Filter(db.amounts, (a: AmountRow) => !AuthoredBy(db.recipes, a.recipe, user)),
        favorites := MarksKept(db.favorites, db.recipes, user),
        cart := MarksKept(db.cart, db.recipes, user),
        subscriptions := Filter(db.subscriptions, (f: Follow) => f.user != user && f.author != user))
  }

  /** The recipes written by someone other than `user`. */
  function RecipesNotBy(recipes: map<RecipeId, Recipe>, user: UserId): map<RecipeId, Recipe> {
    map k | k in recipes && recipes[k].author != user :: recipes[k]
  }

  /** The relation rows that survive deleting `user`: neither theirs nor on a recipe of theirs. */
  function MarksKept(marks: seq<Mark>, recipes: map<RecipeId, Recipe>, user: UserId): seq<Mark> {
    Filter(marks, (m: Mark) => m.user != user && !AuthoredBy(recipes, m.recipe, user))
  }

  /** Deleting an ingredient deletes the amount rows that use it. */
  function IngredientCascade(db: Db, id: IngredientId): (r: Db)
    ensures r.ingredients.Keys == db.ingredients.Keys - {id}
    ensures forall a :: a in r.amounts <==> a in db.amounts && a.ingredient != id
    ensures r.recipes == db.recipes && r.users == db.users && r.tags == db.tags
    ensures r.favorites == db.favorites && r.cart == db.cart && r.subscriptions == db.subscriptions
  {
    db.(ingredients := db.ingredients - {id}, amounts := Filter(db.amounts, (a: AmountRow) => a.ingredient != id))
  }

  /** Deleting a tag removes it from every recipe's tag set. */
  function TagCascade(db: Db, id: TagId): (r: Db)
    ensures r.tags.Keys == db.tags.Keys - {id}
    ensures r.recipes.Keys == db.recipes.Keys
    ensures forall k :: k in r.recipes ==> r.recipes[k] == db.recipes[k].(tags := db.recipes[k].tags - {id})
    ensures r.users == db.users && r.ingredients == db.ingredients && r.amounts == db.amounts
    ensures r.favorites == db.favorites && r.cart == db.cart && r.subscriptions == db.subscriptions
  {
    var recipes := db.recipes;
    db.(tags := db.tags - {id},
        recipes := map k | k in recipes :: recipes[k].(tags := recipes[k].tags - {id}))
  }

  lemma RecipeCascadeConsistent(db: Db, b: Bounds, id: RecipeId)
    requires Consistent(db, b)
    ensures Consistent(RecipeCascade(db, id), b)
  {
    FilterDistinct(db.favorites, (m: Mark) => m.recipe != id);
    FilterDistinct(db.cart, (m: Mark) => m.recipe != id);
  }

  lemma UserCascadeConsistent(db: Db, b: Bounds, user: UserId)
    requires Consistent(db, b)
    ensures Consistent(UserCascade(db, user), b)
  {
    UserCascadeKeepsEntities(db, b, user);
    UserCascadeKeepsRelations(db, b, user);
  }

  /** The user, tag, ingredient, recipe and amount tables stay consistent after a user is deleted. */
  lemma UserCascadeKeepsEntities(db: Db, b: Bounds, user: UserId)
    requires Consistent(db, b)
    ensures var r := UserCascade(db, user);
      && UsersOk(r.users) && TagsOk(r.tags) && IngredientsOk(r.ingredients)
      && RecipesOk(r.recipes, r.users, r.tags, b)
      && AmountsOk(r.amounts, r.recipes, r.ingredients, b)
  {
    var r := UserCascade(db, user);
    assert RecipesOk(r.recipes, r.users, r.tags, b) by {
      forall k | k in r.recipes ensures RecipeOk(r.recipes[k], r.users, r.tags, b) {
        assert RecipeOk(db.recipes[k], db.users, db.tags, b);
      }
    }
  }

  /** The favourite, cart and subscription tables stay consistent after a user is deleted. */
  lemma UserCascadeKeepsRelations(db: Db, b: Bounds, user: UserId)
    requires Consistent(db, b)
    ensures var r := UserCascade(db, user);
      && MarksOk(r.favorites, r.users, r.recipes)
      && MarksOk(r.cart, r.users, r.recipes)
      && FollowsOk(r.subscriptions, r.users)
  {
    UserMarksOk(db.favorites, db.users, db.recipes, user);
    UserMarksOk(db.cart, db.users, db.recipes, user);
    FilterDistinct(db.subscriptions, (f: Follow) => f.user != user && f.author != user);
  }

  lemma UserMarksOk(marks: seq<Mark>, users: map<UserId, User>, recipes: map<RecipeId, Recipe>, user: UserId)
    requires MarksOk(marks, users, recipes)
    ensures MarksOk(MarksKept(marks, recipes, user), users - {user}, RecipesNotBy(recipes, user))
  {
    FilterDistinct(marks, (m: Mark) => m.user != user && !AuthoredBy(recipes, m.recipe, user));
  }

  /** After a user is deleted nothing in a consistent store refers to them any more. */
  lemma UserCascadeLeavesNoTrace(db: Db, b: Bounds, user: UserId)
    requires Consistent(db, b)
    ensures var r := UserCascade(db, user);
      && user !in r.users
      && (forall k :: k in r.recipes ==> r.recipes[k].author != user)
      && (forall m :: m in r.favorites || m in r.cart ==> m.user != user)
      && (forall f :: f in r.subscriptions ==> f.user != user && f.author != user)
  {
  }

  lemma IngredientCascadeConsistent(db: Db, b: Bounds, id: IngredientId)
    requires Consistent(db, b)
    ensures Consistent(IngredientCascade(db, id), b)
  {
  }

  lemma TagCascadeConsistent(db: Db, b: Bounds, id: TagId)
    requires Consistent(db, b)
    ensures Consistent(TagCascade(db, id), b)
  {
    var r := TagCascade(db, id);
    forall k | k in r.recipes ensures RecipeOk(r.recipes[k], r.users, r.tags, b) {
      assert RecipeOk(db.recipes[k], db.users, db.tags, b);
    }
  }
}
