/** Pancake recipes: the value built by `Pancake.Builder`, its rendered description
    (the default method of `PancakeRecipe`) and `DefaultPancakeFactory`. */
module Recipes {
  import opened Wrappers
  import opened Ingredients

  /** A pancake is its ordered list of ingredients. Being a value, it is its own
      defensive copy: nothing done to a builder afterwards can reach it. */
  datatype Pancake = Pancake(ingredients: seq<Ingredient>)

  /** The recipes that can exist: `build` never lets an empty ingredient list through. */
  type PancakeRecipe = p: Pancake | |p.ingredients| > 0 witness Pancake([DarkChocolate])

  /** `build` on an empty builder throws `IllegalStateException`. */
  datatype RecipeError = NoIngredients

  const DescriptionPrefix: string := "Delicious pancake with "
  const DescriptionSuffix: string := "!"

  /** `String.join(", ", labels)`: the ingredient labels in order, separated by ", ". */
  function JoinLabels(ingredients: seq<Ingredient>): (r: string)
    ensures |r| == 0 <==> |ingredients| == 0
    ensures |ingredients| > 0 ==> Label(ingredients[0]) <= r
  {
    if |ingredients| == 0 then ""
    else if |ingredients| == 1 then Label(ingredients[0])
    else Label(ingredients[0]) + ", " + JoinLabels(ingredients[1..])
  }

  /** The text a recipe is shown as, and the key it is matched by when pancakes are removed:
      the fixed prefix, at least one label, then the closing "!". */
  function Description(p: PancakeRecipe): (d: string)
    ensures DescriptionPrefix <= d
    ensures d[|d| - 1] == '!'
    ensures |d| > |DescriptionPrefix| + |DescriptionSuffix|
  {
    DescriptionPrefix + JoinLabels(p.ingredients) + DescriptionSuffix
  }

  /** A non-empty list renders as its first label followed by the rendering of the rest. */
  function RestOfLabels(ingredients: seq<Ingredient>): string
    requires |ingredients| > 0
  {
    if |ingredients| == 1 then "" else ", " + JoinLabels(ingredients[1..])
  }

  lemma CancelPrefix(x: string, y: string, z: string)
    requires x + y == x + z
    ensures y == z
  {
    assert y == (x + y)[|x|..];
    assert z == (x + z)[|x|..];
  }

  /** Two equal non-empty renderings start with the same ingredient ... */
  lemma JoinLabelsHead(a: seq<Ingredient>, b: seq<Ingredient>)
    requires |a| > 0 && |b| > 0
    requires JoinLabels(a) == JoinLabels(b)
    ensures a[0] == b[0]
  {
    assert Label(a[0])[0] == JoinLabels(a)[0] == Label(b[0])[0];
    LabelFirstLetterIdentifies(a[0], b[0]);
  }

  lemma JoinLabelsUnfold(a: seq<Ingredient>)
    requires |a| > 0
    ensures JoinLabels(a) == Label(a[0]) + RestOfLabels(a)
  {
  }

  /** ... and then agree on the rest. */
  lemma JoinLabelsTail(a: seq<Ingredient>, b: seq<Ingredient>)
    requires |a| > 0 && |b| > 0 && a[0] == b[0]
    requires JoinLabels(a) == JoinLabels(b)
    ensures RestOfLabels(a) == RestOfLabels(b)
  {
    JoinLabelsUnfold(a);
    JoinLabelsUnfold(b);
    CancelPrefix(Label(a[0]), RestOfLabels(a), RestOfLabels(b));
  }

  /** Distinct ingredient lists render to distinct label lists. */
  lemma {:induction false} JoinLabelsInjective(a: seq<Ingredient>, b: seq<Ingredient>)
    requires JoinLabels(a) == JoinLabels(b)
    ensures a == b
  {
    if |a| == 0 || |b| == 0 {
      return;
    }
    JoinLabelsHead(a, b);
    JoinLabelsTail(a, b);
    if |a| > 1 && |b| > 1 {
      CancelPrefix(", ", JoinLabels(a[1..]), JoinLabels(b[1..]));
      JoinLabelsInjective(a[1..], b[1..]);
      assert a == [a[0]] + a[1..] && b == [b[0]] + b[1..];
    } else {
      assert |RestOfLabels(a)| == 0 && |RestOfLabels(b)| == 0;
    }
  }

  /** Removal matches pancakes by description; this is the same as matching them by
      ingredient list, since the description determines the recipe. */
  lemma DescriptionIdentifiesRecipe(p: PancakeRecipe, q: PancakeRecipe)
    requires Description(p) == Description(q)
    ensures p == q
  {
    var n := |DescriptionPrefix|;
    var dp, dq := Description(p), Description(q);
    assert JoinLabels(p.ingredients) == dp[n..|dp| - 1];
    assert JoinLabels(q.ingredients) == dq[n..|dq| - 1];
    JoinLabelsInjective(p.ingredients, q.ingredients);
  }

  /** The strings the recipe and service tests expect, one lemma each. */
  /** A recipe whose labels join to `labels` is described by the prefix, `labels` and the suffix. */
  lemma DescriptionFromLabels(p: PancakeRecipe, labels: string)
    requires JoinLabels(p.ingredients) == labels
    ensures Description(p) == DescriptionPrefix + labels + DescriptionSuffix
  {
  }

  lemma DarkChocolateDescription()
    ensures Description(Pancake([DarkChocolate])) == "Delicious pancake with dark chocolate!"
  {
    DescriptionFromLabels(Pancake([DarkChocolate]), "dark chocolate");
    assert DescriptionPrefix + "dark chocolate" + DescriptionSuffix == "Delicious pancake with dark chocolate!";
  }

  lemma MilkChocolateDescription()
    ensures Description(Pancake([MilkChocolate])) == "Delicious pancake with milk chocolate!"
  {
    DescriptionFromLabels(Pancake([MilkChocolate]), "milk chocolate");
    assert DescriptionPrefix + "milk chocolate" + DescriptionSuffix == "Delicious pancake with milk chocolate!";
  }

  /** Two labels are joined with ", " between them. */
  lemma JoinLabelsPair(x: Ingredient, y: Ingredient)
    ensures JoinLabels([x, y]) == Label(x) + ", " + Label(y)
  {
    assert [x, y][1..] == [y];
  }

  lemma MilkChocolateHazelnutsDescription()
    ensures Description(Pancake([MilkChocolate, Hazelnuts])) == "Delicious pancake with milk chocolate, hazelnuts!"
  {
    var labels := "milk chocolate, hazelnuts";
    JoinLabelsPair(MilkChocolate, Hazelnuts);
    assert Label(MilkChocolate) + ", " + Label(Hazelnuts) == labels;
    DescriptionFromLabels(Pancake([MilkChocolate, Hazelnuts]), labels);
    MilkChocolateHazelnutsText();
  }

  /** The expected text, spelled out from its three parts. */
  lemma MilkChocolateHazelnutsText()
    ensures DescriptionPrefix + "milk chocolate, hazelnuts" + DescriptionSuffix
         == "Delicious pancake with milk chocolate, hazelnuts!"
  {
  }

  /** `Pancake.Builder`: accumulates ingredients in a mutable list, then checks and copies it. */
  class Builder {
    var ingredients: seq<Ingredient>

    constructor ()
      ensures ingredients == []
    {
      ingredients := [];
    }

    /** `withIngredients` appends (`addAll`) and returns the builder itself for chaining. */
    method WithIngredients(more: seq<Ingredient>) returns (self: Builder)
      modifies this
      ensures ingredients == old(ingredients) + more
      ensures self == this
    {
      ingredients := ingredients + more;
      self := this;
    }

    /** `build`: fails on an empty list, otherwise yields a pancake holding exactly the
        accumulated ingredients, in order. The builder is left as it was. */
    method Build() returns (r: Result<PancakeRecipe, RecipeError>)
      ensures r.Failure? <==> |ingredients| == 0
      ensures r.Failure? ==> r.error == NoIngredients
      ensures r.Success? ==> r.value.ingredients == ingredients
    {
      if |ingredients| == 0 {
        return Failure(NoIngredients);
      }
      r := Success(Pancake(ingredients));
    }
  }

  /** `DefaultPancakeFactory.createRecipe`: a fresh builder, `withIngredients`, `build`.
      The result depends on the argument alone. */
  method CreateRecipe(ingredients: seq<Ingredient>) returns (r: Result<PancakeRecipe, RecipeError>)
    ensures r.Failure? <==> |ingredients| == 0
    ensures r.Failure? ==> r.error == NoIngredients
    ensures r.Success? ==> r.value.ingredients == ingredients
  {
    var builder := new Builder();
    builder := builder.WithIngredients(ingredients);
    r := builder.Build();
  }
}
