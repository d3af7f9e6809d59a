/**
 * The enumerations of the food tracker and the per-category display tables
 * (lib/types.ts). Strings are sequences of Unicode code points; the source's
 * emoji, written there as UTF-16 surrogate pairs, appear here as the code
 * points those pairs encode.
 */
module Types {
  import opened Wrappers

  /** Where an item is kept: the string literals "fridge" and "freezer". */
  datatype StorageLocation = Fridge | Freezer

  /** The closed set of food categories. */
  datatype FoodCategory =
    | Dairy
    | Vegetables
    | Fruits
    | Meat
    | Fish
    | Frozen
    | Beverages
    | Grains
    | Snacks
    | Condiments
    | Other

  /**
   * The item record as lib/types.ts declares it: one location, optional entry
   * time, expiry date and notes, and a single flag for finished. The store in
   * lib/food-store.ts does not use this shape (see `FoodStore.FoodItem`).
   */
  datatype DeclaredFoodItem = DeclaredFoodItem(
    id: string,
    userId: string,
    name: string,
    location: StorageLocation,
    entryDate: string,
    entryTime: Option<string>,
    expiryDate: Option<string>,
    notes: Option<string>,
    isFinished: bool,
    createdAt: string)

  /** The string literal that stands for a location in the stored records. */
  function LocationName(loc: StorageLocation): string
  {
    match loc
    case Fridge => "fridge"
    case Freezer => "freezer"
  }

  /** Reads a location back from its string literal; any other string is no location. */
  function ParseLocation(s: string): (r: Option<StorageLocation>)
    ensures r.Some? <==> s == "fridge" || s == "freezer"
    ensures r.Some? ==> LocationName(r.value) == s
  {
    if s == "fridge" then Some(Fridge)
    else if s == "freezer" then Some(Freezer)
    else None
  }

  /** The string literal of a location reads back as that location. */
  lemma LocationRoundTrip(loc: StorageLocation)
    ensures ParseLocation(LocationName(loc)) == Some(loc)
  {
  }

  /** Every category value. */
  const AllCategories: set<FoodCategory> :=
    {Dairy, Vegetables, Fruits, Meat, Fish, Frozen, Beverages, Grains, Snacks, Condiments, Other}

  /** The category set is closed: it has eleven values, among them `Other`, and no category lies outside it. */
  lemma CategoriesClosed()
    ensures |AllCategories| == 11
    ensures Other in AllCategories
    ensures forall c: FoodCategory :: c in AllCategories
  {
    forall c: FoodCategory ensures c in AllCategories {
      match c
      case Dairy =>
      case Vegetables =>
      case Fruits =>
      case Meat =>
      case Fish =>
      case Frozen =>
      case Beverages =>
      case Grains =>
      case Snacks =>
      case Condiments =>
      case Other =>
    }
  }

  const CategoryLabels: map<FoodCategory, string> := map[
    Dairy := "Dairy",
    Vegetables := "Vegetables",
    Fruits := "Fruits",
    Meat := "Meat",
    Fish := "Fish",
    Frozen := "Frozen",
    Beverages := "Beverages",
    Grains := "Grains",
    Snacks := "Snacks",
    Condiments := "Condiments",
    Other := "Other"
  ]

  const CategoryEmojis: map<FoodCategory, string> := map[
    Dairy := "\U{1F9C0}",
    Vegetables := "\U{1F966}",
    Fruits := "\U{1F353}",
    Meat := "\U{1F969}",
    Fish := "\U{1F41F}",
    Frozen := "\U{2744}\U{FE0F}",
    Beverages := "\U{1F9C3}",
    Grains := "\U{1F33E}",
    Snacks := "\U{1F36A}",
    Condiments := "\U{1FAD9}",
    Other := "\U{1F4E6}"
  ]

  const CategoryBgColors: map<FoodCategory, string> := map[
    Dairy := "bg-amber-100",
    Vegetables := "bg-emerald-100",
    Fruits := "bg-rose-100",
    Meat := "bg-red-100",
    Fish := "bg-sky-100",
    Frozen := "bg-blue-100",
    Beverages := "bg-cyan-100",
    Grains := "bg-orange-100",
    Snacks := "bg-yellow-100",
    Condiments := "bg-lime-100",
    Other := "bg-stone-100"
  ]

  /** The three tables are total: every category has a label, an emoji and a background colour, none of them empty. */
  lemma CategoryTablesTotal()
    ensures forall c: FoodCategory :: c in CategoryLabels && c in CategoryEmojis && c in CategoryBgColors
    ensures forall c: FoodCategory :: |CategoryLabels[c]| > 0 && |CategoryEmojis[c]| > 0 && |CategoryBgColors[c]| > 0
  {
    forall c: FoodCategory
      ensures c in CategoryLabels && c in CategoryEmojis && c in CategoryBgColors
      ensures |CategoryLabels[c]| > 0 && |CategoryEmojis[c]| > 0 && |CategoryBgColors[c]| > 0
    {
      match c
      case Dairy =>
      case Vegetables =>
      case Fruits =>
      case Meat =>
      case Fish =>
      case Frozen =>
      case Beverages =>
      case Grains =>
      case Snacks =>
      case Condiments =>
      case Other =>
    }
  }
}
