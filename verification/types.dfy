/** The shared data model of the application (types/index.ts). JavaScript numbers that
    hold nutrition amounts, quantities, weights and heights are modelled as `real`; optional
    properties (`brand?`, `image?`, ...) as `Option`. */
module Types {
  import opened Common

  datatype ThemeMode = Light | Dark

  /** A nutritional reference record; the macro fields are per serving. */
  datatype Food = Food(
    id: string,
    name: string,
    brand: Option<string>,
    calories: real,
    protein: real,
    carbs: real,
    fat: real,
    servingSize: real,
    servingUnit: string,
    barcode: Option<string>,
    image: Option<string>)

  /** No two foods of the list share an id. */
  ghost predicate DistinctIds(foods: seq<Food>) {
    forall i, j :: 0 <= i < j < |foods| ==> foods[i].id != foods[j].id
  }

  datatype MealType = Breakfast | Lunch | Dinner | Snack

  /** The order in which the stores scan the four meal lists. */
  const MealOrder: seq<MealType> := [Breakfast, Lunch, Dinner, Snack]

  /** One logged instance of a food being eaten. `date` and `createdAt` are ISO strings. */
  datatype MealEntry = MealEntry(
    id: string,
    food: Food,
    quantity: real,
    mealType: MealType,
    date: string,
    createdAt: string)

  /** The `meals` record of a daily log: one entry list per meal type. */
  datatype Meals = Meals(
    breakfast: seq<MealEntry>,
    lunch: seq<MealEntry>,
    dinner: seq<MealEntry>,
    snack: seq<MealEntry>)
  {
    /** `meals[mealType]` */
    function Get(mt: MealType): seq<MealEntry> {
      match mt
      case Breakfast => breakfast
      case Lunch => lunch
      case Dinner => dinner
      case Snack => snack
    }

    /** `{ ...meals, [mealType]: entries }` */
    function With(mt: MealType, entries: seq<MealEntry>): (r: Meals)
      ensures r.Get(mt) == entries
      ensures forall other :: other != mt ==> r.Get(other) == Get(other)
    {
      match mt
      case Breakfast => this.(breakfast := entries)
      case Lunch => this.(lunch := entries)
      case Dinner => this.(dinner := entries)
      case Snack => this.(snack := entries)
    }
  }

  /** The aggregate for one calendar date: four running totals and the four entry lists. */
  datatype DailyNutrition = DailyNutrition(
    date: string,
    calories: real,
    protein: real,
    carbs: real,
    fat: real,
    meals: Meals)

  datatype NutritionGoals = NutritionGoals(calories: real, protein: real, carbs: real, fat: real)

  datatype Gender = Male | Female | Other

  datatype ActivityLevel = Sedentary | LightActivity | Moderate | Active | VeryActive

  datatype UserProfile = UserProfile(
    id: string,
    name: string,
    email: string,
    profilePicture: Option<string>,
    weight: Option<real>,
    height: Option<real>,
    age: Option<int>,
    gender: Option<Gender>,
    activityLevel: Option<ActivityLevel>,
    goals: NutritionGoals,
    isPremium: bool,
    premiumUntil: Option<string>,
    theme: ThemeMode)
}
