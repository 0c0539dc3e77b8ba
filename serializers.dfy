/**
 * The write-side validation rules: recipe input (field checks, then the object-level checks for
 * empty and repeated ingredients and tags), the subscription request and the favourite/cart
 * request.
 */
module Serializers {
  import opened Common
  import opened Models

  /** Why a request was refused with status 400. */
  datatype Problem =
    | AlreadySubscribed
    | SelfSubscription
    | NotSubscribed
    | UnknownRecipe
    | AlreadyAdded
    | NotInList
    | InvalidRecipe(error: RecipeError)

  datatype Field = NameField | ImageField | TextField | CookingTimeField | TagsField | IngredientsField

  /** Field errors are reported together; the object-level checks run only when there are none. */
  datatype RecipeError =
    | FieldErrors(fields: set<Field>)
    | EmptyIngredients
    | DuplicateIngredients
    | EmptyTags
    | DuplicateTags

  /** One `{"id": ..., "amount": ...}` entry of the ingredients list. */
  datatype IngredientAmount = IngredientAmount(id: IngredientId, amount: int)

  /** The recipe fields of a request; `None` is a field the request leaves out. */
  datatype RecipeData = RecipeData(
    name: Option<string>,
    image: Option<Image>,
    text: Option<string>,
    cookingTime: Option<int>,
    tags: Option<seq<TagId>>,
    ingredients: Option<seq<IngredientAmount>>)

  /**
   * A text field is stripped; it may not then be blank or hold a NUL character. What is stored is
   * the stripped text.
   */
  predicate TextRejected(v: Option<string>, partial: bool) {
    match v
    case None => !partial
    case Some(s) => Strip(s) == [] || '\0' in Strip(s)
  }

  predicate ImageRejected(v: Option<Image>, partial: bool) {
    match v
    case None => !partial
    case Some(img) => img.NoImage?
  }

  predicate BoundRejected(v: Option<int>, partial: bool, b: Bounds) {
    match v
    case None => !partial
    case Some(t) => !b.Contains(t)
  }

  predicate TagsRejected(v: Option<seq<TagId>>, partial: bool, known: set<TagId>) {
    match v
    case None => !partial
    case Some(ts) => exists t :: t in ts && t !in known
  }

  predicate IngredientsRejected(v: Option<seq<IngredientAmount>>, partial: bool, b: Bounds, known: set<IngredientId>) {
    match v
    case None => !partial
    case Some(items) => exists x :: x in items && (x.id !in known || !b.Contains(x.amount))
  }

  /** The field fails its own check (a missing field fails unless the update is partial). */
  predicate FieldRejected(d: RecipeData, partial: bool, b: Bounds, knownTags: set<TagId>,
                          knownIngredients: set<IngredientId>, f: Field)
  {
    match f
    case NameField => TextRejected(d.name, partial)
    case ImageField => ImageRejected(d.image, partial)
    case TextField => TextRejected(d.text, partial)
    case CookingTimeField => BoundRejected(d.cookingTime, partial, b)
    case TagsField => TagsRejected(d.tags, partial, knownTags)
    case IngredientsField => IngredientsRejected(d.ingredients, partial, b, knownIngredients)
  }

  const AllFields: set<Field> := {NameField, ImageField, TextField, CookingTimeField, TagsField, IngredientsField}

  /** The fields that fail their own checks; DRF runs every field's check and reports all failures. */
  function FieldProblems(d: RecipeData, partial: bool, b: Bounds, knownTags: set<TagId>,
                         knownIngredients: set<IngredientId>): (r: set<Field>)
    ensures forall f :: f in r <==> FieldRejected(d, partial, b, knownTags, knownIngredients, f)
  {
    AllFieldsListed();
    set f | f in AllFields && FieldRejected(d, partial, b, knownTags, knownIngredients, f)
  }

  lemma AllFieldsListed()
    ensures forall f: Field :: f in AllFields
  {
    forall f: Field ensures f in AllFields {
      match f
      case NameField =>
      case ImageField =>
      case TextField =>
      case CookingTimeField =>
      case TagsField =>
      case IngredientsField =>
    }
  }

  function IngredientIds(items: seq<IngredientAmount>): (r: seq<IngredientId>)
    ensures |r| == |items|
    ensures forall i :: 0 <= i < |items| ==> r[i] == items[i].id
  {
    if items == [] then [] else [items[0].id] + IngredientIds(items[1..])
  }

  /** With no field errors, every present field passed its own check and, unless partial, every field is present. */
  lemma NoProblemsMeansSoundFields(d: RecipeData, partial: bool, b: Bounds, knownTags: set<TagId>,
                                   knownIngredients: set<IngredientId>)
    requires FieldProblems(d, partial, b, knownTags, knownIngredients) == {}
    ensures !partial ==> d.name.Some? && d.image.Some? && d.text.Some? && d.cookingTime.Some?
    ensures !partial ==> d.tags.Some? && d.ingredients.Some?
    ensures d.name.Some? ==> |Strip(d.name.value)| > 0 && '\0' !in Strip(d.name.value)
    ensures d.text.Some? ==> |Strip(d.text.value)| > 0 && '\0' !in Strip(d.text.value)
    ensures d.image.Some? ==> d.image.value.Picture?
    ensures d.cookingTime.Some? ==> b.Contains(d.cookingTime.value)
    ensures d.tags.Some? ==> forall t :: t in d.tags.value ==> t in knownTags
    ensures d.ingredients.Some? ==>
      forall x :: x in d.ingredients.value ==> x.id in knownIngredients && b.Contains(x.amount)
  {
    var bad := FieldProblems(d, partial, b, knownTags, knownIngredients);
    assert NameField !in bad && ImageField !in bad && TextField !in bad;
    assert CookingTimeField !in bad && TagsField !in bad && IngredientsField !in bad;
  }

  /** The object-level check, in its order: ingredients present, no repeated ingredient, tags present, no repeated tag. */
  function CheckLists(d: RecipeData): Result<RecipeData, RecipeError> {
    var items := d.ingredients.GetOr([]);
    var tags := d.tags.GetOr([]);
    if items == [] then Failure(EmptyIngredients)
    else if |Elements(IngredientIds(items))| != |items| then Failure(DuplicateIngredients)
    else if tags == [] then Failure(EmptyTags)
    else if |Elements(tags)| != |tags| then Failure(DuplicateTags)
    else Success(d)
  }

  function StripText(v: Option<string>): Option<string> {
    match v
    case None => None
    case Some(s) => Some(Strip(s))
  }

  /**
   * Recipe validation for create (`partial` false) and update. On success the result is the
   * input with name and text stripped; every list is present, non-empty and free of repeats, every
   * referenced tag and ingredient exists, and every number lies within the bounds.
   */
  function ValidateRecipe(d: RecipeData, partial: bool, b: Bounds, knownTags: set<TagId>,
                          knownIngredients: set<IngredientId>): (r: Result<RecipeData, RecipeError>)
    ensures r.Success? ==>
      && d.ingredients.Some? && |d.ingredients.value| > 0
      && Distinct(IngredientIds(d.ingredients.value))
      && (forall x :: x in d.ingredients.value ==> x.id in knownIngredients && b.Contains(x.amount))
      && d.tags.Some? && |d.tags.value| > 0 && Distinct(d.tags.value)
      && (forall t :: t in d.tags.value ==> t in knownTags)
      && (!partial ==> d.name.Some? && d.image.Some? && d.text.Some? && d.cookingTime.Some?)
      && (d.name.Some? ==> r.value.name == Some(Strip(d.name.value)) && |Strip(d.name.value)| > 0
                           && '\0' !in Strip(d.name.value))
      && (d.text.Some? ==> r.value.text == Some(Strip(d.text.value)) && |Strip(d.text.value)| > 0
                           && '\0' !in Strip(d.text.value))
      && (d.image.Some? ==> d.image.value.Picture?)
      && (d.cookingTime.Some? ==> b.Contains(d.cookingTime.value))
      && r.value == d.(name := r.value.name, text := r.value.text)
    ensures r.Failure? && r.error.FieldErrors? ==> r.error.fields != {}
    ensures r.Failure? && r.error.FieldErrors? ==>
      forall f :: f in r.error.fields <==> FieldRejected(d, partial, b, knownTags, knownIngredients, f)
    ensures forall f :: FieldRejected(d, partial, b, knownTags, knownIngredients, f) ==>
      r.Failure? && r.error.FieldErrors? && f in r.error.fields
  {
    var bad := FieldProblems(d, partial, b, knownTags, knownIngredients);
    if bad != {} then Failure(FieldErrors(bad))
    else match CheckLists(d)
      case Failure(e) => Failure(e)
      case Success(_) =>
        NoProblemsMeansSoundFields(d, partial, b, knownTags, knownIngredients);
        DistinctIffSetSize(IngredientIds(d.ingredients.value));
        DistinctIffSetSize(d.tags.value);
        Success(d.(name := StripText(d.name), text := StripText(d.text)))
  }

  /** No field errors: the object-level checks decide. */
  predicate FieldsAccepted(d: RecipeData, partial: bool, b: Bounds, knownTags: set<TagId>,
                           knownIngredients: set<IngredientId>)
  {
    FieldProblems(d, partial, b, knownTags, knownIngredients) == {}
  }

  /** An empty or missing ingredients list is refused, and with sound fields that is the reported error. */
  lemma EmptyIngredientsRejected(d: RecipeData, partial: bool, b: Bounds, kt: set<TagId>, ki: set<IngredientId>)
    requires d.ingredients.None? || d.ingredients == Some([])
    ensures ValidateRecipe(d, partial, b, kt, ki).Failure?
    ensures FieldsAccepted(d, partial, b, kt, ki) ==> ValidateRecipe(d, partial, b, kt, ki) == Failure(EmptyIngredients)
  {
  }

  /** Two entries with the same ingredient id are refused. */
  lemma DuplicateIngredientsRejected(d: RecipeData, partial: bool, b: Bounds, kt: set<TagId>, ki: set<IngredientId>,
                                     i: nat, j: nat)
    requires d.ingredients.Some? && i < j < |d.ingredients.value|
    requires d.ingredients.value[i].id == d.ingredients.value[j].id
    ensures ValidateRecipe(d, partial, b, kt, ki).Failure?
    ensures FieldsAccepted(d, partial, b, kt, ki) ==> ValidateRecipe(d, partial, b, kt, ki) == Failure(DuplicateIngredients)
  {
    var ids := IngredientIds(d.ingredients.value);
    assert ids[i] == ids[j];
    DistinctIffSetSize(ids);
  }

  /** A missing, empty or repeating tag list is refused. */
  lemma BadTagsRejected(d: RecipeData, partial: bool, b: Bounds, kt: set<TagId>, ki: set<IngredientId>)
    requires d.tags.None? || d.tags == Some([]) || !Distinct(d.tags.value)
    ensures ValidateRecipe(d, partial, b, kt, ki).Failure?
  {
  }

  /** An empty image is refused as an error of the image field. */
  lemma EmptyImageRejected(d: RecipeData, partial: bool, b: Bounds, kt: set<TagId>, ki: set<IngredientId>)
    requires d.image == Some(NoImage)
    ensures var r := ValidateRecipe(d, partial, b, kt, ki);
      r.Failure? && r.error.FieldErrors? && ImageField in r.error.fields
  {
    assert FieldRejected(d, partial, b, kt, ki, ImageField);
  }

  /** A name holding a NUL character is refused as an error of the name field, wherever the NUL sits. */
  lemma NulInNameRejected(d: RecipeData, partial: bool, b: Bounds, kt: set<TagId>, ki: set<IngredientId>,
                          pre: string, post: string)
    requires d.name == Some(pre + "\0" + post)
    ensures var r := ValidateRecipe(d, partial, b, kt, ki);
      r.Failure? && r.error.FieldErrors? && NameField in r.error.fields
  {
    var s := pre + "\0" + post;
    assert s[|pre|] == '\0';
    assert !IsSpace('\0');
    StripKeepsInner(s, |pre|);
    assert FieldRejected(d, partial, b, kt, ki, NameField);
  }

  /** A cooking time outside the bounds is refused as an error of that field. */
  lemma CookingTimeOutOfBounds(d: RecipeData, partial: bool, b: Bounds, kt: set<TagId>, ki: set<IngredientId>)
    requires d.cookingTime.Some? && !b.Contains(d.cookingTime.value)
    ensures var r := ValidateRecipe(d, partial, b, kt, ki);
      r.Failure? && r.error.FieldErrors? && CookingTimeField in r.error.fields
  {
    assert FieldRejected(d, partial, b, kt, ki, CookingTimeField);
  }

  /** An ingredient entry whose amount lies outside the bounds is refused as an error of the ingredients field. */
  lemma AmountOutOfBounds(d: RecipeData, partial: bool, b: Bounds, kt: set<TagId>, ki: set<IngredientId>, k: nat)
    requires d.ingredients.Some? && k < |d.ingredients.value| && !b.Contains(d.ingredients.value[k].amount)
    ensures var r := ValidateRecipe(d, partial, b, kt, ki);
      r.Failure? && r.error.FieldErrors? && IngredientsField in r.error.fields
  {
    assert FieldRejected(d, partial, b, kt, ki, IngredientsField);
    assert d.ingredients.value[k] in d.ingredients.value;
  }

  /** A complete, well-formed request is accepted: the checks refuse nothing else. */
  lemma ValidRequestAccepted(d: RecipeData, partial: bool, b: Bounds, kt: set<TagId>, ki: set<IngredientId>)
    requires FieldsAccepted(d, partial, b, kt, ki)
    requires d.ingredients.Some? && |d.ingredients.value| > 0 && Distinct(IngredientIds(d.ingredients.value))
    requires d.tags.Some? && |d.tags.value| > 0 && Distinct(d.tags.value)
    ensures ValidateRecipe(d, partial, b, kt, ki).Success?
  {
    DistinctIffSetSize(IngredientIds(d.ingredients.value));
    DistinctIffSetSize(d.tags.value);
  }

  /**
   * The subscription request: an existing (user, author) pair is refused first, then a
   * request to follow oneself.
   */
  function ValidateSubscription(follows: seq<Follow>, user: UserId, author: UserId): (r: Result<Follow, Problem>)
    ensures r.Success? <==> Follow(user, author) !in follows && user != author
    ensures r.Success? ==> r.value == Follow(user, author)
    ensures Follow(user, author) in follows ==> r == Failure(AlreadySubscribed)
    ensures Follow(user, author) !in follows && user == author ==> r == Failure(SelfSubscription)
  {
    if Follow(user, author) in follows then Failure(AlreadySubscribed)
    else if user == author then Failure(SelfSubscription)
    else Success(Follow(user, author))
  }

  /**
   * The favourite or cart request: the recipe field must name an existing recipe, and the
   * (user, recipe) pair must not be in the relation yet.
   */
  function ValidateMark(marks: seq<Mark>, recipes: set<RecipeId>, user: UserId, recipe: RecipeId): (r: Result<Mark, Problem>)
    ensures r.Success? <==> recipe in recipes && Mark(user, recipe) !in marks
    ensures r.Success? ==> r.value == Mark(user, recipe)
    ensures recipe !in recipes ==> r == Failure(UnknownRecipe)
    ensures recipe in recipes && Mark(user, recipe) in marks ==> r == Failure(AlreadyAdded)
  {
    if recipe !in recipes then Failure(UnknownRecipe)
    else if Mark(user, recipe) in marks then Failure(AlreadyAdded)
    else Success(Mark(user, recipe))
  }
}
