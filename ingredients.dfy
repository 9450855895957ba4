/** The closed set of pancake ingredients and the label each one renders as. */
module Ingredients {

  /** The four enum constants, in declaration order. */
  datatype Ingredient = DarkChocolate | WhippedCream | MilkChocolate | Hazelnuts

  /** The label fixed for each constant. No label is empty and none contains a comma,
      so a comma-separated list of labels can be read back unambiguously. */
  function Label(i: Ingredient): (r: string)
    ensures |r| > 0
    ensures ',' !in r
  {
    match i
    case DarkChocolate => "dark chocolate"
    case WhippedCream => "whipped cream"
    case MilkChocolate => "milk chocolate"
    case Hazelnuts => "hazelnuts"
  }

  /** The labels are pairwise distinct; indeed the first letter alone identifies the ingredient. */
  lemma LabelFirstLetterIdentifies(x: Ingredient, y: Ingredient)
    requires Label(x)[0] == Label(y)[0]
    ensures x == y
  {
  }
}
