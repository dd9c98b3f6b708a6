/** The domain classifiers of src/aareguru_mcp/helpers.py: seasonal advice by
    month, the two flow-rate classifiers, the Swiss German phrase lookup and
    the choice of a warmer city. Flows (m³/s) and temperatures (°C) are only
    compared, so they are `real`. */
module Helpers {
  import opened Wrappers

  // ---------------------------------------------------------------- seasons

  const WinterAdvice: string := "\U{2744}\U{FE0F} Winter Season: Water is freezing. Only for experienced ice swimmers. Keep swims very short."
  const SpringAdvice: string := "\U{1F331} Spring: Water is still very cold from snowmelt. Wetsuit recommended."
  const SummerAdvice: string := "\U{2600}\U{FE0F} Summer: Perfect swimming season! Don't forget sunscreen."
  const AutumnAdvice: string := "\U{1F342} Autumn: Water is getting colder. Check daylight hours and bring warm clothes."

  /** `get_seasonal_advice` for the month the clock reads (1 = January). Any
      month outside the three named groups falls to the autumn message. */
  function SeasonalAdvice(month: int): (advice: string)
    ensures advice == WinterAdvice <==> month in {11, 12, 1, 2, 3}
    ensures advice == SpringAdvice <==> month in {4, 5}
    ensures advice == SummerAdvice <==> month in {6, 7, 8}
    ensures advice == AutumnAdvice <==> month !in {11, 12, 1, 2, 3, 4, 5, 6, 7, 8}
  {
    if month in {11, 12, 1, 2, 3} then WinterAdvice
    else if month in {4, 5} then SpringAdvice
    else if month in {6, 7, 8} then SummerAdvice
    else AutumnAdvice
  }

  /** Every calendar month gets exactly one of the four messages; autumn is
      September and October. */
  lemma {:induction false} EveryMonthOneSeason(month: int)
    requires 1 <= month <= 12
    ensures SeasonalAdvice(month) in {WinterAdvice, SpringAdvice, SummerAdvice, AutumnAdvice}
    ensures SeasonalAdvice(month) == AutumnAdvice <==> month in {9, 10}
  {
    var _ := SeasonalAdvice(month);
  }

  // ----------------------------------------------------- flow-rate warnings

  const ExtremeDanger: string := "\U{26D4} EXTREME DANGER: Flow is very high (>430 m\U{B3}/s). Swimming is life-threatening."
  const Danger: string := "\U{26A0}\U{FE0F} DANGER: High flow rate (>300 m\U{B3}/s). Swimming NOT recommended."
  const Caution: string := "\U{26A0}\U{FE0F} CAUTION: Elevated flow rate. Only for experienced swimmers."

  /** `threshold or 220`: a missing or zero threshold means 220 m³/s. */
  function EffectiveThreshold(threshold: Option<real>): (t: real)
    ensures t != 0.0
    ensures threshold.Some? && threshold.value != 0.0 ==> t == threshold.value
    ensures threshold.None? || threshold.value == 0.0 ==> t == 220.0
  {
    if threshold.Some? && threshold.value != 0.0 then threshold.value else 220.0
  }

  /** `check_safety_warning(flow, threshold)`: strict comparisons, the highest
      band first. */
  function CheckSafetyWarning(flow: Option<real>, threshold: Option<real>): (w: Option<string>)
    ensures flow.None? ==> w.None?
    ensures w == Some(ExtremeDanger) <==> flow.Some? && flow.value > 430.0
    ensures w == Some(Danger) <==> flow.Some? && 300.0 < flow.value <= 430.0
    ensures w == Some(Caution) <==> flow.Some? && EffectiveThreshold(threshold) < flow.value <= 300.0
    ensures w.None? <==> flow.None? || (flow.value <= 300.0 && flow.value <= EffectiveThreshold(threshold))
  {
    if flow.None? then None
    else
      var t := EffectiveThreshold(threshold);
      if flow.value > 430.0 then Some(ExtremeDanger)
      else if flow.value > 300.0 then Some(Danger)
      else if flow.value > t then Some(Caution)
      else None
  }

  /** How serious a warning is: none, caution, danger, extreme. */
  function Severity(w: Option<string>): nat
  {
    if w == Some(ExtremeDanger) then 3
    else if w == Some(Danger) then 2
    else if w == Some(Caution) then 1
    else 0
  }

  /** More flow never gives a milder warning. */
  lemma WarningMonotoneInFlow(f1: real, f2: real, threshold: Option<real>)
    requires f1 <= f2
    ensures Severity(CheckSafetyWarning(Some(f1), threshold)) <= Severity(CheckSafetyWarning(Some(f2), threshold))
  {
  }

  // ---------------------------------------------------- safety assessment

  /** The assessment text and the danger level 0..5. */
  datatype Assessment = Assessment(text: string, level: nat)

  /** The text that goes with each danger level. */
  const AssessmentTexts: seq<string> := [
    "Unknown - no flow data",
    "Safe - low flow",
    "Moderate - safe for experienced swimmers",
    "Elevated - caution advised",
    "High - dangerous conditions",
    "Very high - extremely dangerous, avoid swimming"
  ]

  /** `get_safety_assessment(flow, threshold)`: the first band whose upper
      bound the flow is below, with bounds 100, threshold, 300, 430. */
  function SafetyAssessment(flow: Option<real>, threshold: real): (a: Assessment)
    ensures a.level <= 5 && a.text == AssessmentTexts[a.level]
    ensures a.level == 0 <==> flow.None?
    ensures flow.Some? ==> var f := flow.value;
      && (a.level == 1 <==> f < 100.0)
      && (a.level == 2 <==> 100.0 <= f < threshold)
      && (a.level == 3 <==> 100.0 <= f && threshold <= f < 300.0)
      && (a.level == 4 <==> 100.0 <= f && threshold <= f && 300.0 <= f < 430.0)
      && (a.level == 5 <==> 100.0 <= f && threshold <= f && 430.0 <= f)
  {
    if flow.None? then Assessment(AssessmentTexts[0], 0)
    else if flow.value < 100.0 then Assessment(AssessmentTexts[1], 1)
    else if flow.value < threshold then Assessment(AssessmentTexts[2], 2)
    else if flow.value < 300.0 then Assessment(AssessmentTexts[3], 3)
    else if flow.value < 430.0 then Assessment(AssessmentTexts[4], 4)
    else Assessment(AssessmentTexts[5], 5)
  }

  /** More flow never lowers the danger level, whatever the threshold; a
      higher threshold never raises it. */
  lemma AssessmentMonotone(f1: real, f2: real, t1: real, t2: real)
    requires f1 <= f2 && t2 <= t1
    ensures SafetyAssessment(Some(f1), t1).level <= SafetyAssessment(Some(f2), t2).level
  {
  }

  /** Away from the band edges, and for a threshold in [100, 300], the warning
      and the danger level tell the same story: no warning for levels 1 and 2,
      caution for 3, danger for 4, extreme danger for 5. */
  lemma WarningMatchesAssessment(f: real, t: real)
    requires 100.0 <= t <= 300.0
    requires f != t && f != 300.0 && f != 430.0
    ensures var level := SafetyAssessment(Some(f), t).level;
      Severity(CheckSafetyWarning(Some(f), Some(t))) == if level <= 2 then 0 else level - 2
  {
  }

  /** On the band edges the two classifiers disagree, because one compares with
      `<` and the other with `>`: a flow equal to the threshold is level 3 with
      no warning, a flow of 300 is level 4 with only a caution, and a flow of
      430 is level 5 with only a danger warning. */
  lemma BandEdgesDisagree(t: real)
    requires 100.0 <= t < 300.0
    ensures SafetyAssessment(Some(t), t).level == 3 && CheckSafetyWarning(Some(t), Some(t)).None?
    ensures SafetyAssessment(Some(300.0), t).level == 4 && CheckSafetyWarning(Some(300.0), Some(t)) == Some(Caution)
    ensures SafetyAssessment(Some(430.0), t).level == 5 && CheckSafetyWarning(Some(430.0), Some(t)) == Some(Danger)
  {
  }

  // ------------------------------------------------------ Swiss German phrases

  /** The upper-case letters whose lower case this model knows: ASCII `A`-`Z`
      and the Latin-1 letters U+00C0 to U+00DE except the sign U+00D7. */
  predicate IsUpper(c: char)
  {
    'A' <= c <= 'Z' || ('\U{C0}' <= c <= '\U{DE}' && c != '\U{D7}')
  }

  /** `str.lower` on one character: an upper-case letter becomes its lower-case
      partner 32 code points on, anything else is kept. */
  function LowerChar(c: char): (l: char)
    ensures !IsUpper(l)
    ensures IsUpper(c) ==> l as int == c as int + 32
    ensures !IsUpper(c) ==> l == c
  {
    if IsUpper(c) then (c as int + 32) as char else c
  }

  /** `str.lower`, character by character. */
  function Lower(s: string): (r: string)
    ensures |r| == |s|
    ensures forall i :: 0 <= i < |r| ==> !IsUpper(r[i])
    ensures forall i :: 0 <= i < |s| && !IsUpper(s[i]) ==> r[i] == s[i]
    ensures forall i :: 0 <= i < |s| && IsUpper(s[i]) ==> r[i] as int == s[i] as int + 32
  {
    seq(|s|, i requires 0 <= i < |s| => LowerChar(s[i]))
  }

  /** Lowering twice is lowering once. */
  lemma LowerIdempotent(s: string)
    ensures Lower(Lower(s)) == Lower(s)
  {
  }

  /** `a` and `b` are the same character up to case. */
  predicate SameLetterUpToCase(a: char, b: char)
  {
    a == b || (IsUpper(a) && b as int == a as int + 32) || (IsUpper(b) && a as int == b as int + 32)
  }

  /** Strings that differ only in the case of their letters lower to the same
      string. */
  lemma LowerIgnoresCase(s: string, t: string)
    requires |s| == |t|
    requires forall i :: 0 <= i < |s| ==> SameLetterUpToCase(s[i], t[i])
    ensures Lower(s) == Lower(t)
  {
    forall i | 0 <= i < |s| ensures Lower(s)[i] == Lower(t)[i] {
      assert !IsUpper(Lower(s)[i]) && !IsUpper(Lower(t)[i]);
    }
  }

  /** `phrase in text` for strings: `phrase` occurs at position `i`. */
  predicate OccursAt(text: string, phrase: string, i: int)
  {
    0 <= i && i + |phrase| <= |text| && text[i..i + |phrase|] == phrase
  }

  predicate Contains(text: string, phrase: string)
  {
    exists i :: 0 <= i <= |text| && OccursAt(text, phrase, i)
  }

  /** A phrase longer than the text cannot occur in it. */
  lemma TooLongNeverContained(text: string, phrase: string)
    requires |phrase| > |text|
    ensures !Contains(text, phrase)
  {
  }

  const Awesome: string := "Awesome but a bit cold (typical Bernese understatement)"

  /** The phrase table, in the order it is searched. */
  const Phrases: seq<(string, string)> := [
    ("geil aber chli chalt", Awesome),
    ("sch\U{F6}n warm", "Nice and warm"),
    ("arschkalt", "Freezing cold"),
    ("perfekt", "Perfect conditions"),
    ("chli chalt", "A bit cold"),
    ("brrr", "Very cold")
  ]

  /** Whether entry `j` of the table matches the (already lowered) text. */
  predicate Matches(lowered: string, j: nat)
    requires j < |Phrases|
  {
    Contains(lowered, Lower(Phrases[j].0))
  }

  /** The first entry at or after `k` whose phrase occurs in `lowered`. */
  function FirstMatchFrom(lowered: string, k: nat): (r: Option<nat>)
    requires k <= |Phrases|
    decreases |Phrases| - k
    ensures r.Some? ==> k <= r.value < |Phrases| && Matches(lowered, r.value)
    ensures r.Some? ==> forall j :: k <= j < r.value ==> !Matches(lowered, j)
    ensures r.None? ==> forall j :: k <= j < |Phrases| ==> !Matches(lowered, j)
  {
    if k == |Phrases| then None
    else if Matches(lowered, k) then Some(k)
    else FirstMatchFrom(lowered, k + 1)
  }

  /** `get_swiss_german_explanation(text)`: nothing for a missing or empty
      text; otherwise the explanation of the first phrase in table order that
      occurs in the text, ignoring case; nothing when none occurs. */
  function SwissGermanExplanation(text: Option<string>): (r: Option<string>)
    ensures text.None? || text.value == "" ==> r.None?
    ensures r.Some? ==>
      exists j :: 0 <= j < |Phrases| && r.value == Phrases[j].1 && Matches(Lower(text.value), j)
        && forall i :: 0 <= i < j ==> !Matches(Lower(text.value), i)
    ensures r.None? && text.Some? && text.value != "" ==> forall j :: 0 <= j < |Phrases| ==> !Matches(Lower(text.value), j)
  {
    if text.None? || text.value == "" then None
    else
      var m := FirstMatchFrom(Lower(text.value), 0);
      if m.Some? then Some(Phrases[m.value].1) else None
  }

  /** The table's phrases are already in lower case. */
  lemma PhrasesAreLowercase()
    ensures forall j :: 0 <= j < |Phrases| ==> Lower(Phrases[j].0) == Phrases[j].0
  {
    forall j | 0 <= j < |Phrases|
      ensures Lower(Phrases[j].0) == Phrases[j].0
    {
      var p := Phrases[j].0;
      assert forall i :: 0 <= i < |p| ==> LowerChar(p[i]) == p[i];
    }
  }

  /** Any text holding "geil aber chli chalt", in any case, is explained by the
      first entry, even though it also holds the later "chli chalt". */
  lemma {:induction false} FirstPhraseWins(text: string)
    requires Contains(Lower(text), "geil aber chli chalt")
    ensures SwissGermanExplanation(Some(text)) == Some(Awesome)
    ensures Contains(Lower(text), "chli chalt")
  {
    PhrasesAreLowercase();
    assert Matches(Lower(text), 0);
    var l, p := Lower(text), "geil aber chli chalt";
    assert |p| == 20 && p[10..] == "chli chalt";
    var i :| 0 <= i <= |l| && OccursAt(l, p, i);
    OccursAtSuffix(l, p, i, 10);
  }

  /** Where a phrase occurs, so does each of its suffixes. */
  lemma OccursAtSuffix(text: string, phrase: string, i: int, a: nat)
    requires OccursAt(text, phrase, i) && a <= |phrase|
    ensures OccursAt(text, phrase[a..], i + a)
  {
    assert text[i + a..i + |phrase|] == text[i..i + |phrase|][a..];
  }

  /** Upper case is matched too: "SCH\U{D6}N WARM" is "Nice and warm". */
  lemma {:induction false} CaseIsIgnored()
    ensures SwissGermanExplanation(Some("SCH\U{D6}N WARM")) == Some("Nice and warm")
  {
    PhrasesAreLowercase();
    var l := Lower("SCH\U{D6}N WARM");
    assert l == "sch\U{F6}n warm";
    assert OccursAt(l, Phrases[1].0, 0);
    TooLongNeverContained(l, Phrases[0].0);
  }

  /** The explanation does not depend on case: texts that differ only in the
      case of their letters get the same explanation. */
  lemma ExplanationIgnoresCase(s: string, t: string)
    requires |s| == |t|
    requires forall i :: 0 <= i < |s| ==> SameLetterUpToCase(s[i], t[i])
    ensures SwissGermanExplanation(Some(s)) == SwissGermanExplanation(Some(t))
  {
    LowerIgnoresCase(s, t);
  }

  /** The shortest phrase has four letters, so shorter texts get no
      explanation. */
  lemma {:induction false} ShortTextUnexplained(text: string)
    requires |text| < 4
    ensures SwissGermanExplanation(Some(text)).None?
  {
    PhrasesAreLowercase();
    forall j | 0 <= j < |Phrases| ensures !Matches(Lower(text), j) {
      TooLongNeverContained(Lower(text), Phrases[j].0);
    }
  }

  // ---------------------------------------------------------- warmer city

  /** One entry of the cities listing: identifier, display name, water
      temperature if known. */
  datatype CityListItem = CityListItem(city: string, name: string, aare: Option<real>)

  /** A city the suggestion may pick: not the current one, with a temperature. */
  predicate Candidate(c: CityListItem, current: string)
  {
    c.city != current && c.aare.Some?
  }

  /** The selection loop of `get_warmer_suggestion`: the first city, other
      than `current`, whose temperature is strictly the greatest, counting only
      temperatures above the starting maximum of -100. */
  method WarmestOther(cities: seq<CityListItem>, current: string) returns (warmest: Option<nat>, maxTemp: real)
    ensures maxTemp >= -100.0
    ensures forall i :: 0 <= i < |cities| && Candidate(cities[i], current) ==> cities[i].aare.value <= maxTemp
    ensures warmest.None? ==> maxTemp == -100.0
    ensures warmest.Some? ==> var w := warmest.value;
      && w < |cities| && Candidate(cities[w], current) && cities[w].aare.value == maxTemp && maxTemp > -100.0
      && forall i :: 0 <= i < w && Candidate(cities[i], current) ==> cities[i].aare.value < maxTemp
  {
    warmest, maxTemp := None, -100.0;
    var k := 0;
    while k < |cities|
      invariant 0 <= k <= |cities|
      invariant maxTemp >= -100.0
      invariant forall i :: 0 <= i < k && Candidate(cities[i], current) ==> cities[i].aare.value <= maxTemp
      invariant warmest.None? ==> maxTemp == -100.0
      invariant warmest.Some? ==> var w := warmest.value;
        && w < k && Candidate(cities[w], current) && cities[w].aare.value == maxTemp && maxTemp > -100.0
        && forall i :: 0 <= i < w && Candidate(cities[i], current) ==> cities[i].aare.value < maxTemp
    {
      var c := cities[k];
      if c.city != current && c.aare.Some? {
        if c.aare.value > maxTemp {
          maxTemp := c.aare.value;
          warmest := Some(k);
        }
      }
      k := k + 1;
    }
  }

  /** What the suggestion names: the warmer city and its temperature. */
  datatype Suggestion = Suggestion(name: string, aare: real)

  /** What `get_warmer_suggestion(current_city, current_temp)` answers, given
      what `get_cities` returned (`None` when it raised): a suggestion exactly
      when the current temperature is known and below 18, the listing was
      fetched, and some other city is more than one degree warmer (and above
      -100); it names the warmest such city, the first one on a tie. */
  predicate IsWarmerSuggestion(currentCity: string, currentTemp: Option<real>, cities: Option<seq<CityListItem>>,
                               s: Option<Suggestion>)
  {
    && (s.Some? <==>
         (currentTemp.Some? && currentTemp.value < 18.0 && cities.Some?
          && exists i :: 0 <= i < |cities.value| && Candidate(cities.value[i], currentCity)
               && cities.value[i].aare.value > -100.0 && cities.value[i].aare.value > currentTemp.value + 1.0))
    && (s.Some? ==>
         exists w :: 0 <= w < |cities.value| && Candidate(cities.value[w], currentCity)
           && s.value == Suggestion(cities.value[w].name, cities.value[w].aare.value)
           && (forall i :: 0 <= i < |cities.value| && Candidate(cities.value[i], currentCity) ==> cities.value[i].aare.value <= s.value.aare)
           && (forall i :: 0 <= i < w && Candidate(cities.value[i], currentCity) ==> cities.value[i].aare.value < s.value.aare))
  }

  /** The description above admits one answer only: the suggestion is
      determined by the inputs. */
  lemma {:induction false} SuggestionIsDetermined(currentCity: string, currentTemp: Option<real>,
                                                  cities: Option<seq<CityListItem>>, s1: Option<Suggestion>, s2: Option<Suggestion>)
    requires IsWarmerSuggestion(currentCity, currentTemp, cities, s1)
    requires IsWarmerSuggestion(currentCity, currentTemp, cities, s2)
    ensures s1 == s2
  {
    if s1.Some? && s2.Some? {
      var cs := cities.value;
      var w1 :| 0 <= w1 < |cs| && Candidate(cs[w1], currentCity)
        && s1.value == Suggestion(cs[w1].name, cs[w1].aare.value)
        && (forall i :: 0 <= i < |cs| && Candidate(cs[i], currentCity) ==> cs[i].aare.value <= s1.value.aare)
        && (forall i :: 0 <= i < w1 && Candidate(cs[i], currentCity) ==> cs[i].aare.value < s1.value.aare);
      var w2 :| 0 <= w2 < |cs| && Candidate(cs[w2], currentCity)
        && s2.value == Suggestion(cs[w2].name, cs[w2].aare.value)
        && (forall i :: 0 <= i < |cs| && Candidate(cs[i], currentCity) ==> cs[i].aare.value <= s2.value.aare)
        && (forall i :: 0 <= i < w2 && Candidate(cs[i], currentCity) ==> cs[i].aare.value < s2.value.aare);
      assert s1.value.aare == s2.value.aare;
      assert w1 == w2;
    }
  }

  /** `get_warmer_suggestion`, with the failure of `get_cities` as `None`. */
  method WarmerSuggestion(currentCity: string, currentTemp: Option<real>, cities: Option<seq<CityListItem>>)
    returns (s: Option<Suggestion>)
    ensures IsWarmerSuggestion(currentCity, currentTemp, cities, s)
  {
    if currentTemp.None? || currentTemp.value >= 18.0 || cities.None? {
      return None;
    }
    var warmest, maxTemp := WarmestOther(cities.value, currentCity);
    if warmest.Some? && maxTemp > currentTemp.value + 1.0 {
      var c := cities.value[warmest.value];
      s := Some(Suggestion(c.name, c.aare.value));
    } else {
      s := None;
    }
  }
}
