/** Query-parameter filters for the ingredient and recipe listings. */
module Filters {
  import opened Common
  import opened Models
  import opened Permissions

  /**
   * Case folding for `istartswith`: ASCII letters and the Cyrillic capitals U+0400..U+042F are
   * mapped to lower case; every other character is left as it is.
   */
  function Fold(c: char): (r: char)
    ensures 'A' <= c <= 'Z' ==> r as int == c as int + 32
    ensures 'a' <= r <= 'z' <==> 'a' <= c <= 'z' || 'A' <= c <= 'Z'
  {
    if 'A' <= c <= 'Z' then (c as int + 32) as char
    else if 'А' <= c <= 'Я' then (c as int + 32) as char
    else if 'Ѐ' <= c <= 'Џ' then (c as int + 80) as char
    else c
  }

  function FoldAll(s: string): (r: string)
    ensures |r| == |s|
    ensures forall i :: 0 <= i < |s| ==> r[i] == Fold(s[i])
  {
    if s == [] then [] else [Fold(s[0])] + FoldAll(s[1..])
  }

  /** `name` starts with `prefix` when case is ignored. */
  predicate IStartsWith(name: string, prefix: string) {
    |prefix| <= |name| && FoldAll(name[..|prefix|]) == FoldAll(prefix)
  }

  /**
   * The ingredient `name` filter. The form strips the text and refuses one holding a NUL
   * character (status 400, `None` here); a missing or blank text keeps the listing; otherwise
   * exactly the ingredients whose name starts with the stripped text, ignoring case, stay, in order.
   */
  function IngredientFilter(qs: seq<IngredientId>, ingredients: map<IngredientId, Ingredient>,
                            name: Option<string>): (r: Option<seq<IngredientId>>)
    ensures r.None? <==> name.Some? && '\0' in Strip(name.value)
    ensures name.None? || Strip(name.value) == [] ==> r == Some(qs)
    ensures r.Some? ==> |r.value| <= |qs|
    ensures r.Some? && name.Some? && Strip(name.value) != [] ==>
      forall i :: i in r.value <==> i in qs && i in ingredients && IStartsWith(ingredients[i].name, Strip(name.value))
  {
    if name.None? then Some(qs)
    else
      var text := Strip(name.value);
      if '\0' in text then None
      else if text == [] then Some(qs)
      else Some(Filter(qs, (i: IngredientId) => i in ingredients && IStartsWith(ingredients[i].name, text)))
  }

  /** The recipe has at least one tag whose slug is listed. */
  predicate HasListedTag(recipes: map<RecipeId, Recipe>, tags: map<TagId, Tag>, id: RecipeId, slugs: seq<string>) {
    id in recipes && exists t :: t in recipes[id].tags && t in tags && tags[t].slug in slugs
  }

  /** The `tags` filter: no slugs keeps everything; otherwise a recipe stays iff one of its tags is listed. */
  function TagsFilter(qs: seq<RecipeId>, recipes: map<RecipeId, Recipe>, tags: map<TagId, Tag>,
                      slugs: seq<string>): (r: seq<RecipeId>)
    ensures slugs == [] ==> r == qs
    ensures slugs != [] ==> forall id :: id in r <==> id in qs && HasListedTag(recipes, tags, id, slugs)
  {
    if slugs == [] then qs else Filter(qs, (id: RecipeId) => HasListedTag(recipes, tags, id, slugs))
  }

  /** The `author` filter: keep the recipes written by the given user. */
  function AuthorFilter(qs: seq<RecipeId>, recipes: map<RecipeId, Recipe>, author: Option<UserId>): (r: seq<RecipeId>)
    ensures author.None? ==> r == qs
    ensures author.Some? ==> forall id :: id in r <==> id in qs && id in recipes && recipes[id].author == author.value
  {
    if author.None? then qs else Filter(qs, (id: RecipeId) => id in recipes && recipes[id].author == author.value)
  }

  /**
   * The `is_in_shopping_cart` and `is_favorited` filters, given the relation's rows: with value
   * true and a logged-in requester only that requester's marked recipes stay; with false, no
   * value, or an anonymous requester the listing is returned unchanged.
   */
  function MarkFilter(qs: seq<RecipeId>, marks: seq<Mark>, who: Requester, value: Option<bool>): (r: seq<RecipeId>)
    ensures value == Some(true) && who.Member? ==> forall id :: id in r <==> id in qs && Mark(who.id, id) in marks
    ensures !(value == Some(true) && who.Member?) ==> r == qs
    ensures forall id :: id in r ==> id in qs
  {
    if value == Some(true) && who.Member? then Filter(qs, (id: RecipeId) => Mark(who.id, id) in marks)
    else qs
  }

  datatype RecipeQuery = RecipeQuery(
    tags: seq<string>,
    author: Option<UserId>,
    isInShoppingCart: Option<bool>,
    isFavorited: Option<bool>)

  /** The recipe passes every filter the query sets. */
  predicate Selected(db: Db, who: Requester, q: RecipeQuery, id: RecipeId) {
    && (q.tags != [] ==> HasListedTag(db.recipes, db.tags, id, q.tags))
    && (q.author.Some? ==> id in db.recipes && db.recipes[id].author == q.author.value)
    && (q.isInShoppingCart == Some(true) && who.Member? ==> Mark(who.id, id) in db.cart)
    && (q.isFavorited == Some(true) && who.Member? ==> Mark(who.id, id) in db.favorites)
  }

  /** All recipe filters together, applied one after another as the filter set does. */
  function RecipeFilter(qs: seq<RecipeId>, db: Db, who: Requester, q: RecipeQuery): seq<RecipeId> {
    var byTags := TagsFilter(qs, db.recipes, db.tags, q.tags);
    var byCart := MarkFilter(byTags, db.cart, who, q.isInShoppingCart);
    var byFavorite := MarkFilter(byCart, db.favorites, who, q.isFavorited);
    AuthorFilter(byFavorite, db.recipes, q.author)
  }

  /** The filters combine by AND: a recipe is listed iff it was in the input and passes every set filter. */
  lemma RecipeFilterSelects(qs: seq<RecipeId>, db: Db, who: Requester, q: RecipeQuery)
    ensures forall id :: id in RecipeFilter(qs, db, who, q) <==> id in qs && Selected(db, who, q, id)
    ensures |RecipeFilter(qs, db, who, q)| <= |qs|
  {
  }

  /**
   * The recipe filter form accepts the query: every listed slug names a tag and the author id
   * names a user. Otherwise the listing is refused with status 400.
   */
  predicate QueryAccepted(db: Db, q: RecipeQuery) {
    && (forall s :: s in q.tags ==> SlugKnown(db.tags, s))
    && (q.author.Some? ==> q.author.value in db.users)
  }

  predicate SlugKnown(tags: map<TagId, Tag>, slug: string) {
    exists t :: t in tags && tags[t].slug == slug
  }

  /**
   * The recipe listing: `None` (status 400) when the form refuses the query, otherwise exactly
   * the listed recipes that pass every filter the query sets.
   */
  function RecipeListing(qs: seq<RecipeId>, db: Db, who: Requester, q: RecipeQuery): (r: Option<seq<RecipeId>>)
    ensures r.None? <==> !QueryAccepted(db, q)
    ensures r.Some? ==> |r.value| <= |qs| && forall id :: id in r.value <==> id in qs && Selected(db, who, q, id)
  {
    if !QueryAccepted(db, q) then None
    else
      RecipeFilterSelects(qs, db, who, q);
      Some(RecipeFilter(qs, db, who, q))
  }

  /** The example of a case-insensitive prefix search for "Mi". */
  lemma PrefixExample()
    ensures IStartsWith("Milk", "Mi")
    ensures IStartsWith("milk powder", "Mi")
    ensures !IStartsWith("Almond Milk", "Mi")
  {
    assert "Milk"[..2] == "Mi";
    assert "milk powder"[..2] == "mi";
    assert "Almond Milk"[..2] == "Al";
    assert FoldAll("Al")[0] == 'a';
    assert FoldAll("Mi")[0] == 'm';
  }

  /** The search text is stripped first: " Mi" finds "Milk". */
  lemma StrippedSearchExample()
    ensures IngredientFilter([7], map[7 := Ingredient("Milk", "ml")], Some(" Mi")) == Some([7])
  {
    StripExample();
    PrefixExample();
    var r := IngredientFilter([7], map[7 := Ingredient("Milk", "ml")], Some(" Mi"));
    assert 7 in r.value;
    assert r.value == [r.value[0]];
  }

  lemma StripExample()
    ensures Strip(" Mi") == "Mi" && '\0' !in "Mi"
  {
    var text := " Mi";
    var word := "Mi";
    assert IsSpace(text[0]) && !IsSpace(word[0]) && !IsSpace(word[1]);
    assert text[1..] == word;
    assert StripLeft(word) == word;
    assert StripLeft(text) == word;
    assert StripRight(word) == word;
  }

  /** A blank search text keeps the whole listing. */
  lemma BlankSearchExample()
    ensures IngredientFilter([7, 8], map[], Some(" ")) == Some([7, 8])
  {
    assert " "[1..] == "";
    assert StripLeft(" ") == "";
    assert Strip(" ") == "";
  }
}
