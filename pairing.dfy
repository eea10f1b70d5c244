/**
 The pairing suggestion of /api/pairing/suggestion: one random meal and one
 random drink, combined into a suggestion that is built fresh and never
 stored.
 */
module Pairing {
  import opened Catalog
  import opened Http

  datatype MainCourse = MainCourse(name: string, category: string, area: string, instructions: string)

  /** `kind` is the drink's `type` field (the alcoholic classification). */
  datatype SuggestedDrink = SuggestedDrink(name: string, kind: string, ingredients: seq<string>)

  datatype Suggestion = Suggestion(mainCourse: MainCourse, suggestedDrink: SuggestedDrink, message: string)

  const PairingFailed := "Erro ao buscar dados das APIs de Receitas e Cocktails."

  const MessageHead := "Para o prato \""
  const MessageMiddle := "\", sugerimos o cocktail \""
  const MessageTail := "\"."

  /** `[drink.strIngredient1, drink.strIngredient2].filter(i => i)`. */
  function Ingredients(drink: Drink): (r: seq<string>)
    ensures |r| <= 2
    ensures forall i :: 0 <= i < |r| ==> r[i] != ""
  {
    KeepTruthy([drink.strIngredient1, drink.strIngredient2])
  }

  /** The ingredient list by cases: the first ingredient if truthy, then the
      second if truthy. */
  lemma IngredientsByCases(drink: Drink)
    ensures Ingredients(drink) ==
      (if Truthy(drink.strIngredient1) then [drink.strIngredient1.value] else []) +
      (if Truthy(drink.strIngredient2) then [drink.strIngredient2.value] else [])
  {
    KeepTruthyAppend([drink.strIngredient1], [drink.strIngredient2]);
    assert [drink.strIngredient1, drink.strIngredient2] == [drink.strIngredient1] + [drink.strIngredient2];
    assert [drink.strIngredient1][1..] == [];
    assert [drink.strIngredient2][1..] == [];
  }

  /** The message names the meal and then the drink, each between quotes. */
  function PairingMessage(mealName: string, drinkName: string): (m: string)
    ensures |m| == |MessageHead| + |mealName| + |MessageMiddle| + |drinkName| + |MessageTail|
    ensures m[..|MessageHead|] == MessageHead
    ensures m[|MessageHead|..|MessageHead| + |mealName|] == mealName
    ensures m[|MessageHead| + |mealName|..|MessageHead| + |mealName| + |MessageMiddle|] == MessageMiddle
    ensures m[|m| - |MessageTail| - |drinkName|..|m| - |MessageTail|] == drinkName
    ensures m[|m| - |MessageTail|..] == MessageTail
  {
    MessageHead + mealName + MessageMiddle + drinkName + MessageTail
  }

  /** The suggestion built from a meal whose instructions are `instructions`
      and a drink. */
  function Compose(meal: Meal, instructions: string, drink: Drink): (s: Suggestion)
    ensures s.mainCourse.name == meal.strMeal
    ensures s.mainCourse.category == meal.strCategory
    ensures s.mainCourse.area == meal.strArea
    ensures IsPreview(instructions, PairingPreviewLength, s.mainCourse.instructions)
    ensures |s.mainCourse.instructions| <= PairingPreviewLength + |Ellipsis|
    ensures s.suggestedDrink.name == drink.strDrink
    ensures s.suggestedDrink.kind == drink.strAlcoholic
    ensures |s.suggestedDrink.ingredients| <= 2
    ensures s.suggestedDrink.ingredients == KeepTruthy([drink.strIngredient1, drink.strIngredient2])
    ensures s.message == PairingMessage(meal.strMeal, drink.strDrink)
  {
    Suggestion(
      MainCourse(meal.strMeal, meal.strCategory, meal.strArea, Preview(instructions, PairingPreviewLength)),
      SuggestedDrink(drink.strDrink, drink.strAlcoholic, Ingredients(drink)),
      PairingMessage(meal.strMeal, drink.strDrink))
  }

  /** The handler, given the `meals` and `drinks` lists of the two random
      replies (None when a list is null). Reading the first entry of a null
      or empty list, or the instructions of a meal that has none, throws, and
      the handler answers 500: a suggestion is never returned half-built. */
  function Suggest(meals: Option<seq<Meal>>, drinks: Option<seq<Drink>>): (r: Response<Suggestion>)
    ensures r.status == StatusOk <==>
      FirstEntry(meals).Some? && FirstEntry(drinks).Some? && FirstEntry(meals).value.strInstructions.Some?
    ensures r.status != StatusOk ==> r == Response(StatusServerError, Message(PairingFailed))
    ensures r.status == StatusOk ==>
      var meal := FirstEntry(meals).value;
      var drink := FirstEntry(drinks).value;
      && r.body.Single?
      && var s := r.body.value;
         && s.mainCourse.name == meal.strMeal
         && s.mainCourse.category == meal.strCategory
         && s.mainCourse.area == meal.strArea
         && IsPreview(meal.strInstructions.value, PairingPreviewLength, s.mainCourse.instructions)
         && |s.mainCourse.instructions| <= PairingPreviewLength + |Ellipsis|
         && s.suggestedDrink.name == drink.strDrink
         && s.suggestedDrink.kind == drink.strAlcoholic
         && s.suggestedDrink.ingredients == Ingredients(drink)
         && s.message == PairingMessage(meal.strMeal, drink.strDrink)
  {
    match (FirstEntry(meals), FirstEntry(drinks))
    case (Some(meal), Some(drink)) =>
      if meal.strInstructions.Some? then
        Response(StatusOk, Single(Compose(meal, meal.strInstructions.value, drink)))
      else
        Response(StatusServerError, Message(PairingFailed))
    case _ => Response(StatusServerError, Message(PairingFailed))
  }
}
