// The meal-plan calculators (`cogs/mealplan.py`): the lookup tables, the
// module-level formulas, and the step of the `mealplan` command that derives
// the calorie target and the macros from them. Python floats are modelled
// as exact reals; `round` is written out (half to even).

module Mealplan {
  import opened Errors

  // ---------------------------------------------------------------------
  // Tables
  // ---------------------------------------------------------------------

  const GoalDict: map<int, string> := map[1 := "Bulk", 2 := "Cut", 3 := "Maintain"]

  /** Answer 6 means "I will give the number myself". */
  const BodyfatDict: map<int, Option<int>> := map[1 := Some(30), 2 := Some(25), 3 := Some(20), 4 := Some(15), 5 := Some(10), 6 := None]

  const GenderDict: map<int, string> := map[1 := "Male", 2 := "Female"]

  const ActivityDict: map<int, real> := map[1 := 1.2, 2 := 1.375, 3 := 1.55, 4 := 1.725, 5 := 1.9]

  const DietGoalKcals: map<string, int> := map["Bulk" := 200, "Cut" := -500, "Maintain" := 0]

  const GoalProteinMultiplier: map<string, real> := map["Bulk" := 1.6, "Cut" := 2.0, "Maintain" := 1.8]

  /** Every goal the conversation can store has a calorie adjustment and a
      protein multiplier, so neither lookup can fail on it. */
  lemma GoalTablesAgree()
    ensures forall k :: k in GoalDict ==> GoalDict[k] in DietGoalKcals && GoalDict[k] in GoalProteinMultiplier
    ensures DietGoalKcals.Keys == GoalProteinMultiplier.Keys == GoalDict.Values
  {
    assert GoalDict[1] == "Bulk" && GoalDict[2] == "Cut" && GoalDict[3] == "Maintain";
  }

  // ---------------------------------------------------------------------
  // Rounding
  // ---------------------------------------------------------------------

  /** Python's `round(x)`: the nearest integer, a tie going to the even one. */
  function Round(x: real): (r: int)
    ensures -0.5 <= r as real - x <= 0.5
    ensures (r as real - x == 0.5 || x - r as real == 0.5) ==> r % 2 == 0
  {
    var f := x.Floor;
    var d := x - f as real;
    if d < 0.5 then f
    else if d > 0.5 then f + 1
    else if f % 2 == 0 then f
    else f + 1
  }

  lemma RoundInt(n: int)
    ensures Round(n as real) == n
  {
  }

  /** Rounding never reverses an order. */
  lemma RoundMonotone(x: real, y: real)
    requires x <= y
    ensures Round(x) <= Round(y)
  {
  }

  // ---------------------------------------------------------------------
  // Body composition
  // ---------------------------------------------------------------------

  /** `calculate_state_weight_martin_gerkhan`: height minus the rule's
      reference value `0.1·(height − 190) + 101`. */
  function StateWeight(height: real): (r: real)
    ensures r == 0.9 * height - 82.0
  {
    height - (0.1 * (height - 190.0) + 101.0)
  }

  /** The rule's reference point and slope: 89 kg at 190 cm (height less
      101), 9 kg more for every 10 cm more, so a taller lifter's weight is
      always higher. */
  lemma StateWeightRule(height: real, taller: real)
    requires height < taller
    ensures StateWeight(190.0) == 89.0
    ensures StateWeight(height + 10.0) == StateWeight(height) + 9.0
    ensures StateWeight(height) < StateWeight(taller)
  {
  }

  /** `calculate_ffm`: the fat-free mass. */
  function Ffm(weight: real, bodyfat: real): (r: real)
    ensures 0.0 <= weight && 0.0 <= bodyfat <= 100.0 ==> 0.0 <= r <= weight
  {
    weight * (1.0 - bodyfat / 100.0)
  }

  /** `calculate_total_bodyfat`: what is left of the weight after the
      fat-free mass, which is the body-fat share of the weight. */
  function TotalBodyfat(weight: real, bodyfat: real): (r: real)
    ensures r == weight * bodyfat / 100.0
    ensures r + Ffm(weight, bodyfat) == weight
  {
    weight - Ffm(weight, bodyfat)
  }

  /** `calculate_ffmi`: fat-free mass over the square of the height in
      metres; a zero square divides by zero. */
  function Ffmi(weight: real, height: real, bodyfat: real): (r: Result<real>)
    ensures r.Err? <==> Square(height / 100.0) == 0.0
    ensures r.Err? ==> r.error == ZeroDivisionError
    ensures r.Ok? ==> r.value * Square(height / 100.0) == Ffm(weight, bodyfat)
  {
    if Square(height / 100.0) == 0.0 then Err(ZeroDivisionError)
    else
      DivThenMul(Ffm(weight, bodyfat), Square(height / 100.0));
      Ok(Ffm(weight, bodyfat) / Square(height / 100.0))
  }

  /** `pow(x, 2)`. */
  function Square(x: real): real
  {
    x * x
  }

  lemma DivThenMul(a: real, b: real)
    requires b != 0.0
    ensures (a / b) * b == a
  {
  }

  /** `calculate_adjusted_ffmi`: the FFMI plus the height correction
      `6.1·(1.8 − height/100)`. */
  function AdjustedFfmi(weight: real, height: real, bodyfat: real): (r: Result<real>)
    ensures r.Err? <==> Ffmi(weight, height, bodyfat).Err?
    ensures r.Ok? ==> r.value == Ffmi(weight, height, bodyfat).value + 6.1 * (1.8 - height / 100.0)
  {
    match Ffmi(weight, height, bodyfat)
    case Err(e) => Err(e)
    case Ok(ffmi) => Ok(ffmi + 6.1 * (1.8 - height / 100.0))
  }

  /** The correction vanishes at 180 cm, raises the index below it and lowers
      it above. */
  lemma AdjustedFfmiAt180(weight: real, height: real, bodyfat: real)
    requires Ffmi(weight, height, bodyfat).Ok?
    ensures height == 180.0 ==> AdjustedFfmi(weight, height, bodyfat) == Ffmi(weight, height, bodyfat)
    ensures height < 180.0 ==> AdjustedFfmi(weight, height, bodyfat).value > Ffmi(weight, height, bodyfat).value
    ensures height > 180.0 ==> AdjustedFfmi(weight, height, bodyfat).value < Ffmi(weight, height, bodyfat).value
  {
  }

  /** The most lean mass the rule allows at an adjusted FFMI of `ffmi`. */
  function LeanAtFfmi(ffmi: real, cm: real): real
  {
    (ffmi - 6.1 * (1.8 - cm * 0.01)) * Square(cm * 0.01)
  }

  /** `calculate_muscle_left_to_build`: the lean mass at an adjusted FFMI of
      25 minus the lean mass now. */
  function MuscleLeft(cm: real, bodyfat: real, kg: real): (r: real)
    ensures r + Ffm(kg, bodyfat) == LeanAtFfmi(25.0, cm)
  {
    LeanAtFfmi(25.0, cm) - kg * (100.0 - bodyfat) * 0.01
  }

  /** The muscle left to build is the distance of the adjusted FFMI from 25,
      scaled by the squared height: none is left exactly at 25, some below. */
  lemma MuscleLeftIsFfmiGap(cm: real, bodyfat: real, kg: real)
    requires AdjustedFfmi(kg, cm, bodyfat).Ok?
    ensures MuscleLeft(cm, bodyfat, kg)
         == Square(cm / 100.0) * (25.0 - AdjustedFfmi(kg, cm, bodyfat).value)
  {
    var s := cm / 100.0;
    var s2 := Square(s);
    var ffm := Ffm(kg, bodyfat);
    var q := Ffmi(kg, cm, bodyfat).value;
    assert cm * 0.01 == s;
    assert kg * (100.0 - bodyfat) * 0.01 == ffm;
    assert q * s2 == ffm;
    calc {
      s2 * (25.0 - AdjustedFfmi(kg, cm, bodyfat).value);
      s2 * (25.0 - q - 6.1 * (1.8 - s));
      (25.0 - 6.1 * (1.8 - s)) * s2 - q * s2;
      LeanAtFfmi(25.0, cm) - ffm;
    }
  }

  /** `get_max_weight` as written: the lean mass at `ffmi`, plus `bf` percent
      of that lean mass. */
  function MaxWeightAsWritten(ffmi: real, cm: real, bf: real): (kg: real)
    ensures Ffm(kg, bf) == LeanAtFfmi(ffmi, cm) * (1.0 - (bf / 100.0) * (bf / 100.0))
  {
    var lean := LeanAtFfmi(ffmi, cm);
    FatAddedToLean(lean, bf);
    lean + lean * bf / 100.0
  }

  /** Adding `bf` percent of the lean mass as fat leaves a lean share that is
      short of the lean mass by the squared fat fraction. */
  lemma FatAddedToLean(lean: real, bf: real)
    ensures Ffm(lean + lean * bf / 100.0, bf) == lean * (1.0 - (bf / 100.0) * (bf / 100.0))
  {
    var f := bf / 100.0;
    assert lean + lean * bf / 100.0 == lean * (1.0 + f);
    assert lean * (1.0 + f) * (1.0 - f) == lean * (1.0 - f * f);
  }

  /** The weight at which `bf` percent of the body is fat and the rest is the
      lean mass at `ffmi`. */
  function MaxWeight(ffmi: real, cm: real, bf: real): (kg: real)
    requires bf < 100.0
    ensures Ffm(kg, bf) == LeanAtFfmi(ffmi, cm)
  {
    LeanAtFfmi(ffmi, cm) / (1.0 - bf / 100.0)
  }

  /** At the maximum weight for an adjusted FFMI of 25 there is no muscle
      left to build. */
  lemma MaxWeightLeavesNoMuscle(cm: real, bf: real)
    requires bf < 100.0
    ensures MuscleLeft(cm, bf, MaxWeight(25.0, cm, bf)) == 0.0
  {
    var kg := MaxWeight(25.0, cm, bf);
    assert kg * (100.0 - bf) * 0.01 == Ffm(kg, bf);
  }

  /** As written, a 180 cm frame at 20 % body fat, weighed at its maximum
      (adjusted FFMI 25), still has muscle left to build: adding `bf`
      percent of the lean mass gives a body that is under 20 % fat. */
  lemma MaxWeightAsWrittenLeavesMuscle()
    ensures MuscleLeft(180.0, 20.0, MaxWeightAsWritten(25.0, 180.0, 20.0)) > 0.0
  {
    var lean := LeanAtFfmi(25.0, 180.0);
    assert lean == 81.0;
  }

  // ---------------------------------------------------------------------
  // Years left to build muscle
  // ---------------------------------------------------------------------

  /** `gain_rate`: kilograms of muscle a year, year after year. */
  const GainRate: seq<real> := [2.5, 2.5, 2.5, 2.5, 2.5, 2.5, 2.5, 5.5, 11.0, 22.5]

  /** How many years the loop counts: one per rate, while some muscle is
      still left. */
  function Years(kg: real, rates: seq<real>): nat
    decreases |rates|
  {
    if rates == [] || kg <= 0.0 then 0 else 1 + Years(kg - rates[0], rates[1..])
  }

  function PrefixSum(rates: seq<real>, k: nat): real
    requires k <= |rates|
    decreases k
  {
    if k == 0 then 0.0 else PrefixSum(rates, k - 1) + rates[k - 1]
  }

  lemma YearsStep(kg: real, rates: seq<real>, i: nat)
    requires i < |rates| && kg > 0.0
    ensures Years(kg, rates[i..]) == 1 + Years(kg - rates[i], rates[i + 1..])
  {
    assert rates[i..][0] == rates[i] && rates[i..][1..] == rates[i + 1..];
  }

  /** `calculate_years_left_to_build_muscle`. */
  method YearsLeftToBuildMuscle(muscle: real) returns (years: nat)
    ensures years == Years(muscle, GainRate)
  {
    years := CountYears(muscle, GainRate);
  }

  /** The loop of `calculate_years_left_to_build_muscle` over the rates:
      a year is counted and its gain taken off while muscle is left. */
  method CountYears(muscle: real, rates: seq<real>) returns (years: nat)
    ensures years == Years(muscle, rates)
  {
    years := 0;
    var kg := muscle;
    for i := 0 to |rates|
      invariant years + Years(kg, rates[i..]) == Years(muscle, rates)
    {
      if kg <= 0.0 {
        break;
      }
      YearsStep(kg, rates, i);
      years := years + 1;
      kg := kg - rates[i];
    }
  }

  lemma {:induction false} YearsAtMost(kg: real, rates: seq<real>)
    ensures Years(kg, rates) <= |rates|
    ensures kg <= 0.0 ==> Years(kg, rates) == 0
    decreases |rates|
  {
    if rates != [] && kg > 0.0 {
      YearsAtMost(kg - rates[0], rates[1..]);
    }
  }

  /** More muscle left never takes fewer years. */
  lemma {:induction false} YearsMonotone(a: real, b: real, rates: seq<real>)
    requires a <= b
    ensures Years(a, rates) <= Years(b, rates)
    decreases |rates|
  {
    if rates != [] && a > 0.0 {
      YearsMonotone(a - rates[0], b - rates[0], rates[1..]);
    }
  }

  lemma {:induction false} PrefixSumTail(rates: seq<real>, k: nat)
    requires 0 < |rates| && k < |rates|
    ensures PrefixSum(rates, k + 1) == rates[0] + PrefixSum(rates[1..], k)
    decreases k
  {
    if k > 0 {
      PrefixSumTail(rates, k - 1);
    }
  }

  lemma {:induction false} PrefixSumNonDecreasing(rates: seq<real>, j: nat, k: nat)
    requires forall i :: 0 <= i < |rates| ==> rates[i] > 0.0
    requires j <= k <= |rates|
    ensures PrefixSum(rates, j) <= PrefixSum(rates, k)
    decreases k
  {
    if j < k {
      PrefixSumNonDecreasing(rates, j, k - 1);
    }
  }

  /** With positive rates, the count passes `k` exactly when the muscle left
      exceeds what the first `k` years build: the result is the number of
      prefixes of the rates whose total stays below the muscle left. */
  lemma {:induction false} YearsThreshold(kg: real, rates: seq<real>, k: nat)
    requires forall i :: 0 <= i < |rates| ==> rates[i] > 0.0
    ensures Years(kg, rates) > k <==> k < |rates| && kg > PrefixSum(rates, k)
    decreases |rates|
  {
    if rates != [] && kg > 0.0 && k > 0 {
      YearsThreshold(kg - rates[0], rates[1..], k - 1);
      if k - 1 < |rates[1..]| {
        PrefixSumTail(rates, k - 1);
      }
    } else if rates != [] && kg <= 0.0 && k < |rates| {
      PrefixSumNonDecreasing(rates, 0, k);
    }
  }

  // ---------------------------------------------------------------------
  // Macros and energy
  // ---------------------------------------------------------------------

  /** The body-fat factor of `calculate_protein`. */
  function BodyfatMultiplier(bodyfat: real): (m: real)
    ensures bodyfat <= 10.0 ==> m == 1.2
    ensures bodyfat >= 25.0 ==> m == 0.8
    ensures 10.0 < bodyfat < 25.0 ==> m == 1.0
  {
    if bodyfat <= 10.0 then 1.2 else if bodyfat >= 25.0 then 0.8 else 1.0
  }

  /** A leaner body gets at least as high a factor. */
  lemma BodyfatMultiplierNonIncreasing(a: real, b: real)
    requires a <= b
    ensures BodyfatMultiplier(b) <= BodyfatMultiplier(a)
  {
  }

  /** `calculate_protein`: grams a day, bodyweight times the goal's and the
      body fat's multipliers, rounded. */
  function Protein(bodyweight: Option<real>, goal: Option<string>, bodyfat: Option<real>): (r: Result<int>)
    ensures (bodyweight.None? || goal.None? || bodyfat.None?) <==> r == Err(TypeError)
    ensures bodyweight.Some? && goal.Some? && bodyfat.Some? && goal.value !in GoalProteinMultiplier ==>
      r == Err(KeyError(goal.value))
    ensures r.Ok? ==> (goal.value in GoalProteinMultiplier
      && -0.5 <= r.value as real - bodyweight.value * GoalProteinMultiplier[goal.value] * BodyfatMultiplier(bodyfat.value) <= 0.5)
  {
    if bodyweight.None? || goal.None? || bodyfat.None? then Err(TypeError)
    else if goal.value !in GoalProteinMultiplier then Err(KeyError(goal.value))
    else Ok(Round(bodyweight.value * GoalProteinMultiplier[goal.value] * BodyfatMultiplier(bodyfat.value)))
  }

  lemma ProteinUnrounded(bodyweight: real, goal: string, bodyfat: real)
    requires goal in GoalProteinMultiplier
    ensures Protein(Some(bodyweight), Some(goal), Some(bodyfat))
         == Ok(Round(bodyweight * GoalProteinMultiplier[goal] * BodyfatMultiplier(bodyfat)))
  {
  }

  lemma ScaleOrder(w: real, m: real, c1: real, c2: real)
    requires w >= 0.0 && m >= 0.0 && c1 <= c2
    ensures w * c1 * m <= w * c2 * m
  {
    assert w * c2 * m - w * c1 * m == (w * m) * (c2 - c1);
    assert w * m >= 0.0;
  }

  /** At the same weight and body fat, a cut asks for at least as much
      protein as maintenance, and maintenance at least as much as a bulk. */
  lemma ProteinByGoal(bodyweight: real, bodyfat: real)
    requires bodyweight >= 0.0
    ensures Protein(Some(bodyweight), Some("Bulk"), Some(bodyfat)).value
         <= Protein(Some(bodyweight), Some("Maintain"), Some(bodyfat)).value
         <= Protein(Some(bodyweight), Some("Cut"), Some(bodyfat)).value
  {
    var m := BodyfatMultiplier(bodyfat);
    ScaleOrder(bodyweight, m, 1.6, 1.8);
    ScaleOrder(bodyweight, m, 1.8, 2.0);
    ProteinUnrounded(bodyweight, "Bulk", bodyfat);
    ProteinUnrounded(bodyweight, "Maintain", bodyfat);
    ProteinUnrounded(bodyweight, "Cut", bodyfat);
    RoundMonotone(bodyweight * 1.6 * m, bodyweight * 1.8 * m);
    RoundMonotone(bodyweight * 1.8 * m, bodyweight * 2.0 * m);
  }

  /** `calculate_fats`: a fifth of the calories, at 9 kcal a gram. */
  function Fats(kcals: Option<real>): (r: Result<int>)
    ensures kcals.None? <==> r == Err(TypeError)
    ensures r.Ok? ==> -4.5 <= 9.0 * r.value as real - 0.2 * kcals.value <= 4.5
  {
    if kcals.None? then Err(TypeError) else Ok(Round(kcals.value * 0.2 / 9.0))
  }

  /** `calculate_carbs`: the calories left after fat and protein, at 4 kcal a
      gram. */
  function Carbs(kcals: Option<real>, fats: Option<real>, protein: Option<real>): (r: Result<int>)
    ensures (kcals.None? || fats.None? || protein.None?) <==> r == Err(TypeError)
    ensures r.Ok? ==> -2.0 <= 9.0 * fats.value + 4.0 * protein.value + 4.0 * r.value as real - kcals.value <= 2.0
  {
    if kcals.None? || fats.None? || protein.None? then Err(TypeError)
    else Ok(Round((kcals.value - fats.value * 9.0 - protein.value * 4.0) / 4.0))
  }

  /** `calculate_tdee`: the BMR times the activity multiplier, rounded. */
  function Tdee(bmr: Option<real>, multiplier: Option<real>): (r: Result<int>)
    ensures (bmr.None? || multiplier.None?) <==> r == Err(TypeError)
    ensures r.Ok? ==> -0.5 <= r.value as real - bmr.value * multiplier.value <= 0.5
  {
    if bmr.None? || multiplier.None? then Err(TypeError) else Ok(Round(bmr.value * multiplier.value))
  }

  /** `calculate_bmi`: weight over the squared height in metres, rounded. */
  function Bmi(bodyweight: Option<real>, height: Option<real>): (r: Result<int>)
    ensures (bodyweight.None? || height.None?) <==> r == Err(TypeError)
    ensures bodyweight.Some? && height.Some? && Square(height.value / 100.0) == 0.0 ==> r == Err(ZeroDivisionError)
    ensures r.Ok? ==> (Square(height.value / 100.0) != 0.0
      && -0.5 <= r.value as real - bodyweight.value / Square(height.value / 100.0) <= 0.5)
  {
    if bodyweight.None? || height.None? then Err(TypeError)
    else if Square(height.value / 100.0) == 0.0 then Err(ZeroDivisionError)
    else Ok(Round(bodyweight.value / Square(height.value / 100.0)))
  }

  /** The revised Harris–Benedict equations, before rounding. */
  function MaleBmr(bodyweight: real, height: real, age: real): real
  {
    13.397 * bodyweight + 4.799 * height - 5.677 * age + 88.362
  }

  function FemaleBmr(bodyweight: real, height: real, age: real): real
  {
    9.247 * bodyweight + 3.098 * height - 4.330 * age + 447.593
  }

  /** `calculate_bmr`: the male equation for the exact string `"Male"`, the
      female one for anything else. */
  function Bmr(bodyweight: Option<real>, height: Option<real>, age: Option<real>, gender: Option<string>): (r: Result<int>)
    ensures (bodyweight.None? || height.None? || age.None? || gender.None?) <==> r == Err(TypeError)
    ensures r.Ok? && gender.value == "Male" ==> r.value == Round(MaleBmr(bodyweight.value, height.value, age.value))
    ensures r.Ok? && gender.value != "Male" ==> r.value == Round(FemaleBmr(bodyweight.value, height.value, age.value))
  {
    if bodyweight.None? || height.None? || age.None? || gender.None? then Err(TypeError)
    else if gender.value == "Male" then Ok(Round(MaleBmr(bodyweight.value, height.value, age.value)))
    else Ok(Round(FemaleBmr(bodyweight.value, height.value, age.value)))
  }

  /** The conversation stores the gender as typed, and only `"Male"` picks the
      male equation: `"male"` is computed as female. */
  lemma LowercaseMaleIsFemale(bodyweight: real, height: real, age: real)
    ensures Bmr(Some(bodyweight), Some(height), Some(age), Some("male"))
         == Bmr(Some(bodyweight), Some(height), Some(age), Some("Female"))
  {
  }

  /** Both equations grow with weight and height and shrink with age. */
  lemma BmrMonotone(w1: real, w2: real, h1: real, h2: real, a1: real, a2: real, gender: string)
    requires w1 <= w2 && h1 <= h2 && a2 <= a1
    ensures Bmr(Some(w1), Some(h1), Some(a1), Some(gender)).value <= Bmr(Some(w2), Some(h2), Some(a2), Some(gender)).value
  {
    if gender == "Male" {
      RoundMonotone(MaleBmr(w1, h1, a1), MaleBmr(w2, h2, a2));
    } else {
      RoundMonotone(FemaleBmr(w1, h1, a1), FemaleBmr(w2, h2, a2));
    }
  }

  // ---------------------------------------------------------------------
  // The calorie target and the macros of `mealplan`
  // ---------------------------------------------------------------------

  /** `if not self.kcals`: without a target (or with 0) the target is the
      TDEE plus the goal's adjustment. */
  function DeriveKcals(kcals: Option<int>, bodyweight: Option<real>, height: Option<real>, age: Option<real>,
                       gender: Option<string>, activity: Option<real>, goal: string): (r: Result<int>)
    ensures kcals.Some? && kcals.value != 0 ==> r == Ok(kcals.value)
    ensures (kcals.None? || kcals.value == 0) && r.Ok? ==>
      goal in DietGoalKcals
      && var bmr := Bmr(bodyweight, height, age, gender);
      && bmr.Ok? && activity.Some?
      && r.value == Tdee(Some(bmr.value as real), activity).value + DietGoalKcals[goal]
    ensures (kcals.None? || kcals.value == 0) && activity.None? ==> r == Err(TypeError)
    ensures ((kcals.None? || kcals.value == 0) && Bmr(bodyweight, height, age, gender).Ok? && activity.Some?
      && goal !in DietGoalKcals) ==> r == Err(KeyError(goal))
  {
    if kcals.Some? && kcals.value != 0 then Ok(kcals.value)
    else
      var bmr := Bmr(bodyweight, height, age, gender);
      if bmr.Err? then Err(bmr.error)
      else
        var tdee := Tdee(Some(bmr.value as real), activity);
        if tdee.Err? then Err(tdee.error)
        else if goal !in DietGoalKcals then Err(KeyError(goal))
        else Ok(tdee.value + DietGoalKcals[goal])
  }

  /** The three goals sit at fixed distances: a bulk is 200 kcal above
      maintenance, a cut 500 below. */
  lemma KcalsByGoal(bodyweight: real, height: real, age: real, gender: string, activity: real)
    ensures var maintain := DeriveKcals(None, Some(bodyweight), Some(height), Some(age), Some(gender), Some(activity), "Maintain");
      && maintain.Ok?
      && DeriveKcals(None, Some(bodyweight), Some(height), Some(age), Some(gender), Some(activity), "Bulk") == Ok(maintain.value + 200)
      && DeriveKcals(None, Some(bodyweight), Some(height), Some(age), Some(gender), Some(activity), "Cut") == Ok(maintain.value - 500)
  {
  }

  datatype Macros = Macros(protein: int, fats: int, carbs: int)

  /** Lines 194-198 of `mealplan`: protein from the body, fats from the
      calories, carbs from what is left. */
  function MacrosFor(kcals: int, bodyweight: Option<real>, goal: Option<string>, bodyfat: Option<real>): (r: Result<Macros>)
    ensures r.Ok? <==> Protein(bodyweight, goal, bodyfat).Ok?
    ensures r.Ok? ==> r.value.protein == Protein(bodyweight, goal, bodyfat).value
  {
    var protein := Protein(bodyweight, goal, bodyfat);
    if protein.Err? then Err(protein.error)
    else
      var fats := Fats(Some(kcals as real)).value;
      var carbs := Carbs(Some(kcals as real), Some(fats as real), Some(protein.value as real)).value;
      Ok(Macros(protein.value, fats, carbs))
  }

  /** The macros give back the calorie target up to rounding: at 9 kcal a
      gram of fat and 4 a gram of protein or carbs, they miss it by at most
      2 kcal, and fat carries about a fifth of it. */
  lemma MacrosEnergy(kcals: int, bodyweight: Option<real>, goal: Option<string>, bodyfat: Option<real>)
    requires MacrosFor(kcals, bodyweight, goal, bodyfat).Ok?
    ensures var m := MacrosFor(kcals, bodyweight, goal, bodyfat).value;
      && -2 <= 9 * m.fats + 4 * m.protein + 4 * m.carbs - kcals <= 2
      && -4.5 <= 9.0 * m.fats as real - 0.2 * kcals as real <= 4.5
  {
    var m := MacrosFor(kcals, bodyweight, goal, bodyfat).value;
    var c := Carbs(Some(kcals as real), Some(m.fats as real), Some(m.protein as real));
    assert m.carbs == c.value;
  }
}
