/** The shop's record types: the `Sweet` item, its category and the two category tables. */
module SweetTypes {
  import opened Text

  /** `SweetCategory`: exactly seven categories. */
  datatype Category = Chocolate | Gummy | Lollipop | Caramel | Mint | Fruit | Other

  /** The string literal that stands for each category in the source's union type. */
  function Key(c: Category): string {
    match c
    case Chocolate => "chocolate"
    case Gummy => "gummy"
    case Lollipop => "lollipop"
    case Caramel => "caramel"
    case Mint => "mint"
    case Fruit => "fruit"
    case Other => "other"
  }

  /** `CATEGORY_COLORS`: the badge colour variant of each category. */
  function Color(c: Category): string {
    match c
    case Chocolate => "chocolate"
    case Gummy => "strawberry"
    case Lollipop => "blueberry"
    case Caramel => "caramel"
    case Mint => "mint"
    case Fruit => "lemon"
    case Other => "secondary"
  }

  /** `CATEGORY_LABELS`: the display label of each category. */
  function Label(c: Category): string {
    match c
    case Chocolate => "Chocolate"
    case Gummy => "Gummy"
    case Lollipop => "Lollipop"
    case Caramel => "Caramel"
    case Mint => "Mint"
    case Fruit => "Fruit"
    case Other => "Other"
  }

  /** The category list the admin form and the search filter offer, in their order. */
  const Categories: seq<Category> := [Chocolate, Gummy, Lollipop, Caramel, Mint, Fruit, Other]

  /** The list offers every category exactly once. */
  lemma CategoriesListed(c: Category)
    ensures |Categories| == 7
    ensures c in Categories
    ensures forall i, j :: 0 <= i < j < |Categories| ==> Categories[i] != Categories[j]
  {
  }

  /** No two categories share a key. */
  lemma KeyInjective(c: Category, d: Category)
    ensures Key(c) == Key(d) ==> c == d
  {
  }

  /** No two categories share a badge colour. */
  lemma ColorInjective(c: Category, d: Category)
    ensures Color(c) == Color(d) ==> c == d
  {
  }

  /** No two categories share a label. */
  lemma LabelInjective(c: Category, d: Category)
    ensures Label(c) == Label(d) ==> c == d
  {
  }

  /** Each label is the category's key with its first letter capitalised. */
  lemma LabelCapitalisesKey(c: Category)
    ensures Key(c) != ""
    ensures Label(c) == [UpperChar(Key(c)[0])] + Key(c)[1..]
  {
  }

  /**
   * `Sweet`: one catalogue item. Prices are JavaScript numbers and are taken
   * here as reals; stock counts are integers.
   */
  datatype Sweet = Sweet(
    id: string,
    name: string,
    category: Category,
    price: real,
    quantity: int,
    description: string,
    image: string)

  /** `Omit<Sweet, "id">`: what a caller supplies when adding an item. */
  datatype SweetFields = SweetFields(
    name: string,
    category: Category,
    price: real,
    quantity: int,
    description: string,
    image: string)

  /** `{ ...fields, id }` */
  function WithId(f: SweetFields, id: string): Sweet {
    Sweet(id, f.name, f.category, f.price, f.quantity, f.description, f.image)
  }

  /** The fields of an item other than its id. */
  function WithoutId(x: Sweet): SweetFields {
    SweetFields(x.name, x.category, x.price, x.quantity, x.description, x.image)
  }

  /** Attaching an id loses none of the supplied fields, and the id is the one given. */
  lemma WithIdRoundTrip(f: SweetFields, id: string)
    ensures WithoutId(WithId(f, id)) == f
    ensures WithId(f, id).id == id
  {
  }

  /** An item is its fields together with its id. */
  lemma WithoutIdRoundTrip(x: Sweet)
    ensures WithId(WithoutId(x), x.id) == x
  {
  }
}
