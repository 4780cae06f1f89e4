/** The brightness tables: a factor for each of the nine levels -4 .. 4 and
    a description for each. Factors are kept in tenths (2 stands for 0.2),
    so they are exact. */
module BrightnessHelpers {
  import opened Images

  /** The factor table, in tenths. */
  const Factors: map<int, nat> := map[-4 := 2, -3 := 3, -2 := 5, -1 := 7, 0 := 10, 1 := 13, 2 := 16, 3 := 19, 4 := 22]

  const Descriptions: map<int, string> := map[
    -4 := "Very dark (20% brightness)",
    -3 := "Darker (30% brightness)",
    -2 := "Somewhat dark (50% brightness)",
    -1 := "Slightly dark (70% brightness)",
    0 := "Normal (100% brightness)",
    1 := "Slightly bright (130% brightness)",
    2 := "Somewhat bright (160% brightness)",
    3 := "Brighter (190% brightness)",
    4 := "Very bright (220% brightness)"]

  /** The levels both tables are defined on. */
  predicate IsLevel(level: int) {
    -4 <= level <= 4
  }

  /** get_brightness_factor: the table entry, or a ValueError for a level
      outside it. */
  function GetBrightnessFactor(level: int): (r: Result<nat>)
    ensures r.Ok? <==> IsLevel(level)
    ensures r.Err? ==> r.error == BadLevel(level)
    ensures r.Ok? ==> level in Factors && r.value == Factors[level]
  {
    if level !in Factors then Err(BadLevel(level)) else Ok(Factors[level])
  }

  /** get_brightness_description: the table entry, or "Unknown level". */
  function GetBrightnessDescription(level: int): (r: string)
    ensures IsLevel(level) ==> r == Descriptions[level]
    ensures !IsLevel(level) ==> r == "Unknown level"
  {
    if level in Descriptions then Descriptions[level] else "Unknown level"
  }

  /** Level 0 is the identity factor 1.0. */
  lemma LevelZeroIsIdentity()
    ensures GetBrightnessFactor(0) == Ok(10)
  {
  }

  /** A higher level always means a larger factor; negative levels darken
      (factor below 1.0) and positive levels brighten (factor above 1.0). */
  lemma FactorsIncrease(a: int, b: int)
    requires IsLevel(a) && IsLevel(b) && a < b
    ensures Factors[a] < Factors[b]
    ensures a < 0 ==> Factors[a] < 10
    ensures b > 0 ==> Factors[b] > 10
  {
  }
}
