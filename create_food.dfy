/** The create-food form: its editable portion rows, its validation and the food it saves. */
module CreateFood {
  import opened Wrappers
  import opened Text
  import opened JsNumber
  import opened NutritionTypes
  import opened NutritionContext

  /** A portion row as typed: both fields are still text. */
  datatype PortionInput = PortionInput(name: string, grams: string)

  /** The field of a portion row that `updatePortion` writes. */
  datatype PortionField = NameField | GramsField

  /** Why `validateForm` refused the form; each case is one alert. */
  datatype FormError = NameRequired | InvalidCalories | InvalidProtein | InvalidCarbs | InvalidFat

  const BlankPortion := PortionInput("", "")

  /** A parsed amount passes `isNaN(x) || x < 0` unharmed. */
  predicate NonNegative(x: Option<real>)
  {
    x.Some? && x.value >= 0.0
  }

  /** `validateForm`: the name first, then calories, protein, carbs and fat, stopping at the first failure. */
  function ValidateForm(name: string, calories: Option<real>, protein: Option<real>,
                        carbs: Option<real>, fat: Option<real>): (r: Option<FormError>)
    ensures r == None <==> !IsBlank(name) && NonNegative(calories) && NonNegative(protein)
                            && NonNegative(carbs) && NonNegative(fat)
    ensures r == Some(NameRequired) <==> IsBlank(name)
    ensures r == Some(InvalidCalories) <==> !IsBlank(name) && !NonNegative(calories)
    ensures r == Some(InvalidProtein) <==> !IsBlank(name) && NonNegative(calories) && !NonNegative(protein)
    ensures r == Some(InvalidCarbs) <==>
              !IsBlank(name) && NonNegative(calories) && NonNegative(protein) && !NonNegative(carbs)
    ensures r == Some(InvalidFat) <==>
              !IsBlank(name) && NonNegative(calories) && NonNegative(protein) && NonNegative(carbs)
              && !NonNegative(fat)
  {
    if IsBlank(name) then Some(NameRequired)
    else if !NonNegative(calories) then Some(InvalidCalories)
    else if !NonNegative(protein) then Some(InvalidProtein)
    else if !NonNegative(carbs) then Some(InvalidCarbs)
    else if !NonNegative(fat) then Some(InvalidFat)
    else None
  }

  /** What one row becomes in `handleSave`: kept when both fields are filled in and the grams
      parse to a positive number; the kept name is trimmed. */
  function Accepted(p: PortionInput): (r: Option<Portion>)
    ensures r.Some? ==> r.value.name == Trim(p.name) && r.value.name != [] && r.value.grams > 0.0
    ensures r.Some? ==> ParseFloat(p.grams) == Some(r.value.grams)
  {
    if IsBlank(p.name) || IsBlank(p.grams) then None
    else match ParseFloat(p.grams)
      case None => None
      case Some(g) => if g > 0.0 then Some(Portion(Trim(p.name), g)) else None
  }

  /** `validPortions`: the accepted rows, in the order they were entered. */
  function ValidPortions(ps: seq<PortionInput>): (r: seq<Portion>)
    ensures |r| <= |ps|
    ensures forall q :: q in r ==> q.grams > 0.0 && q.name != []
    ensures forall q :: q in r <==> exists p :: p in ps && Accepted(p) == Some(q)
  {
    if ps == [] then []
    else
      var rest := ValidPortions(ps[1..]);
      assert forall p :: p in ps <==> p == ps[0] || p in ps[1..];
      match Accepted(ps[0])
      case None => rest
      case Some(q) => [q] + rest
  }

  /** One row gives its accepted portion, or nothing. */
  lemma ValidPortionsSingle(p: PortionInput)
    ensures ValidPortions([p]) == if Accepted(p).Some? then [Accepted(p).value] else []
  {
    assert [p][1..] == [];
  }

  /** Rows keep their entry order and each row counts on its own: the portions of consecutive
      groups of rows are the portions of the first group followed by those of the second. */
  lemma {:induction false} ValidPortionsAppend(a: seq<PortionInput>, b: seq<PortionInput>)
    ensures ValidPortions(a + b) == ValidPortions(a) + ValidPortions(b)
  {
    if a == [] {
      assert a + b == b;
    } else {
      assert (a + b)[0] == a[0];
      assert (a + b)[1..] == a[1..] + b;
      ValidPortionsAppend(a[1..], b);
    }
  }

  /** Rows left as typed when the form opened contribute nothing. */
  lemma {:induction false} BlankRowsIgnored(ps: seq<PortionInput>)
    requires forall i :: 0 <= i < |ps| ==> ps[i] == BlankPortion
    ensures ValidPortions(ps) == []
  {
    if ps != [] {
      assert Accepted(ps[0]) == None;
      BlankRowsIgnored(ps[1..]);
    }
  }

  /** The object `handleSave` hands to `addCustomFood`, once the form is valid. */
  function Draft(name: string, macros: Macros, category: FoodCategory, ps: seq<PortionInput>): (d: FoodDraft)
    ensures d.name == Trim(name) && d.macros == macros && d.category == category
    ensures !d.isFavorite
    ensures d.commonPortions.None? <==> ValidPortions(ps) == []
    ensures d.commonPortions.Some? ==> d.commonPortions.value == ValidPortions(ps)
  {
    var valid := ValidPortions(ps);
    FoodDraft(Trim(name), macros, category, false, if |valid| > 0 then Some(valid) else None)
  }

  /** The macros of a validated form: every amount parsed and non-negative. */
  function ParsedMacros(calories: Option<real>, protein: Option<real>, carbs: Option<real>, fat: Option<real>): (m: Macros)
    requires NonNegative(calories) && NonNegative(protein) && NonNegative(carbs) && NonNegative(fat)
    ensures m.calories >= 0.0 && m.protein >= 0.0 && m.carbs >= 0.0 && m.fat >= 0.0
    ensures Some(m.calories) == calories && Some(m.protein) == protein
    ensures Some(m.carbs) == carbs && Some(m.fat) == fat
  {
    Macros(calories.value, protein.value, carbs.value, fat.value)
  }

  /** A food saved from the form has a non-blank name and non-negative macros. */
  lemma SavedFoodWellFormed(name: string, calories: Option<real>, protein: Option<real>,
                            carbs: Option<real>, fat: Option<real>,
                            category: FoodCategory, ps: seq<PortionInput>)
    requires ValidateForm(name, calories, protein, carbs, fat) == None
    ensures var d := Draft(name, ParsedMacros(calories, protein, carbs, fat), category, ps);
            d.name != [] && !IsSpace(d.name[0]) && !IsSpace(d.name[|d.name| - 1])
            && d.macros.calories >= 0.0 && d.macros.protein >= 0.0
            && d.macros.carbs >= 0.0 && d.macros.fat >= 0.0
  {
    TrimmedEnds(name);
  }

  /** `removePortion(index)`: the rows without the one at `index`; nothing changes when `index`
      names no row. */
  function WithoutRow(ps: seq<PortionInput>, index: int): (r: seq<PortionInput>)
    ensures 0 <= index < |ps| ==> |r| == |ps| - 1
    ensures 0 <= index < |ps| ==> forall i :: 0 <= i < |r| ==> r[i] == ps[if i < index then i else i + 1]
    ensures !(0 <= index < |ps|) ==> r == ps
  {
    if 0 <= index < |ps| then ps[..index] + ps[index + 1..] else ps
  }

  /** The form's state. */
  class CreateFoodForm {
    var name: string
    var calories: string
    var protein: string
    var carbs: string
    var fat: string
    var selectedCategory: FoodCategory
    var portions: seq<PortionInput>

    /** The form always shows at least one portion row. */
    ghost predicate Valid()
      reads this
    {
      |portions| >= 1
    }

    /** Empty fields, category "other" and one blank portion row. */
    constructor ()
      ensures Valid()
      ensures name == "" && calories == "" && protein == "" && carbs == "" && fat == ""
      ensures selectedCategory == Other && portions == [BlankPortion]
    {
      name, calories, protein, carbs, fat := "", "", "", "", "";
      selectedCategory := Other;
      portions := [BlankPortion];
    }

    /** `addPortion`: a blank row at the end. */
    method AddPortion()
      requires Valid()
      modifies this`portions
      ensures Valid()
      ensures portions == old(portions) + [BlankPortion]
    {
      portions := portions + [BlankPortion];
    }

    /** `removePortion`: ignored while only one row is left. */
    method RemovePortion(index: int)
      requires Valid()
      modifies this`portions
      ensures Valid()
      ensures |old(portions)| > 1 ==> portions == WithoutRow(old(portions), index)
      ensures |old(portions)| <= 1 ==> portions == old(portions)
    {
      if |portions| > 1 {
        portions := WithoutRow(portions, index);
      }
    }

    /** `updatePortion`: one field of one row is replaced. */
    method UpdatePortion(index: int, field: PortionField, value: string)
      requires Valid()
      requires 0 <= index < |portions|
      modifies this`portions
      ensures Valid()
      ensures |portions| == |old(portions)|
      ensures forall i :: 0 <= i < |portions| && i != index ==> portions[i] == old(portions[i])
      ensures field == NameField ==> portions[index] == old(portions[index]).(name := value)
      ensures field == GramsField ==> portions[index] == old(portions[index]).(grams := value)
    {
      var row := portions[index];
      row := if field == NameField then row.(name := value) else row.(grams := value);
      portions := portions[index := row];
    }

    /** `validateForm` on the fields as typed. */
    method Validate() returns (r: Option<FormError>)
      ensures r == ValidateForm(name, ParseFloat(calories), ParseFloat(protein), ParseFloat(carbs), ParseFloat(fat))
    {
      var c, p, cb, f := ParseFloat(calories), ParseFloat(protein), ParseFloat(carbs), ParseFloat(fat);
      if IsBlank(name) {
        return Some(NameRequired);
      }
      if c.None? || c.value < 0.0 {
        return Some(InvalidCalories);
      }
      if p.None? || p.value < 0.0 {
        return Some(InvalidProtein);
      }
      if cb.None? || cb.value < 0.0 {
        return Some(InvalidCarbs);
      }
      if f.None? || f.value < 0.0 {
        return Some(InvalidFat);
      }
      return None;
    }

    /** `handleSave`: a valid form adds a custom food to the catalog (stamped with `now`);
        an invalid one changes nothing. */
    method HandleSave(store: NutritionStore, now: nat) returns (r: Option<FormError>)
      requires store.Valid()
      modifies store
      ensures store.Valid()
      ensures r == ValidateForm(name, ParseFloat(calories), ParseFloat(protein), ParseFloat(carbs), ParseFloat(fat))
      ensures r.None? ==> store.foods == old(store.foods) + [NewCustomFood(
                Draft(name, ParsedMacros(ParseFloat(calories), ParseFloat(protein), ParseFloat(carbs), ParseFloat(fat)),
                      selectedCategory, portions),
                "custom_" + NatToString(now))]
      ensures r.Some? ==> store.foods == old(store.foods)
      ensures store.mealEntries == old(store.mealEntries) && store.currentDate == old(store.currentDate)
      ensures store.nutritionGoals == old(store.nutritionGoals)
    {
      r := Validate();
      if r.None? {
        var macros := ParsedMacros(ParseFloat(calories), ParseFloat(protein), ParseFloat(carbs), ParseFloat(fat));
        store.AddCustomFood(Draft(name, macros, selectedCategory, portions), now);
      }
    }
  }
}
