/**
 * The profile classifier `fakeCareerEngine` (src/lib/fakeEngine.ts): a
 * first-match-wins rule chain over the stored profile's `interest`, `goal`
 * and `hobbies` that returns one of four fixed career lists.
 */
module FakeEngine {
  import opened JsText

  /** A parsed stored profile: a JSON object whose values are strings. */
  type Profile = map<string, string>

  /** `data.key || ""`: an absent field reads as the empty string. */
  function Field(p: Profile, key: string): (r: string)
    ensures key in p ==> r == p[key]
    ensures key !in p ==> r == ""
  {
    if key in p then p[key] else ""
  }

  datatype Career = Career(
    id: string,
    title: string,
    description: string,
    recommended: bool,
    routes: seq<string>)

  /** What the engine returns: the stored profile and the career list. */
  datatype EngineResult = EngineResult(student: Profile, careers: seq<Career>)

  /** The route ids of the landing-page route table. */
  const KnownRouteIds: set<string> := {"route1", "route2", "route3", "route4"}

  const TechnologyCareers: seq<Career> := [
    Career("data-scientist", "Data Science Engineer",
           "Works with data, ML models, and analytics", true, ["route2", "route4", "route1"]),
    Career("software-engineer", "Software Engineer",
           "Builds scalable software systems", false, ["route1", "route2"]),
    Career("mentor", "Tech Mentor / Educator",
           "Guides others through teaching & mentoring", false, ["route1", "route4"])
  ]

  const MedicalCareers: seq<Career> := [
    Career("doctor", "Medical Doctor",
           "Clinical practice and patient care", true, ["route1"]),
    Career("medical-researcher", "Medical Researcher",
           "Research & innovation in healthcare", false, ["route1", "route3"])
  ]

  const SportsCareers: seq<Career> := [
    Career("athlete", "Professional Athlete",
           "Competitive sports and training", true, ["route3", "route4"]),
    Career("coach", "Sports Coach",
           "Training and mentoring athletes", false, ["route4"])
  ]

  const FallbackCareers: seq<Career> := [
    Career("generalist", "Multi-Domain Professional",
           "Flexible career across domains", true, ["route4", "route2"])
  ]

  /** The Technology test: "Technology" occurs in the interest or "Software" in the goal. */
  predicate TechnologyMatch(interest: string, goal: string)
    ensures TechnologyMatch(interest, goal)
        <==> (exists i :: OccursAt(interest, "Technology", i)) || (exists i :: OccursAt(goal, "Software", i))
  {
    Includes(interest, "Technology") || Includes(goal, "Software")
  }

  /** The Medical test: "Medical" occurs in the interest or "Doctor" in the goal. */
  predicate MedicalMatch(interest: string, goal: string)
    ensures MedicalMatch(interest, goal)
        <==> (exists i :: OccursAt(interest, "Medical", i)) || (exists i :: OccursAt(goal, "Doctor", i))
  {
    Includes(interest, "Medical") || Includes(goal, "Doctor")
  }

  /** The sport test: "sport" occurs in the lower-cased hobbies. */
  predicate SportMatch(hobbies: string)
    ensures SportMatch(hobbies) ==> exists i :: OccursAt(ToLower(hobbies), "sport", i)
    ensures (exists i :: OccursAt(ToLower(hobbies), "sport", i)) ==> SportMatch(hobbies)
  {
    Includes(ToLower(hobbies), "sport")
  }

  /** The ids of a career list, in order. */
  function Ids(cs: seq<Career>): (r: seq<string>)
    ensures |r| == |cs|
    ensures forall i :: 0 <= i < |cs| ==> r[i] == cs[i].id
  {
    if cs == [] then [] else [cs[0].id] + Ids(cs[1..])
  }

  /**
   * A list the career page can show: non-empty, the first career is the one
   * recommended and no other is, and every career names at least one route,
   * each of which is in the route table.
   */
  predicate WellFormedList(cs: seq<Career>)
  {
    && |cs| > 0
    && cs[0].recommended
    && (forall i :: 0 < i < |cs| ==> !cs[i].recommended)
    && (forall i :: 0 <= i < |cs| ==> |cs[i].routes| > 0)
    && (forall i, j :: 0 <= i < |cs| && 0 <= j < |cs[i].routes| ==> cs[i].routes[j] in KnownRouteIds)
  }

  /** The rule chain of fakeEngine.ts, lines 11-88. */
  function Careers(interest: string, goal: string, hobbies: string): (r: seq<Career>)
    ensures WellFormedList(r)
  {
    if TechnologyMatch(interest, goal) then TechnologyCareers
    else if MedicalMatch(interest, goal) then MedicalCareers
    else if SportMatch(hobbies) then SportsCareers
    else FallbackCareers
  }

  /** `fakeCareerEngine()`, with the storage read lifted to the parameter `stored`. */
  function FakeCareerEngine(stored: Profile): (r: EngineResult)
    ensures r.student == stored
    ensures WellFormedList(r.careers)
    ensures r.careers == Careers(Field(stored, "interest"), Field(stored, "goal"), Field(stored, "hobbies"))
  {
    EngineResult(stored, Careers(Field(stored, "interest"), Field(stored, "goal"), Field(stored, "hobbies")))
  }

  /** The Technology test wins whenever it passes, whatever the other fields say. */
  lemma TechnologyWins(interest: string, goal: string, hobbies: string)
    requires TechnologyMatch(interest, goal)
    ensures Ids(Careers(interest, goal, hobbies)) == ["data-scientist", "software-engineer", "mentor"]
  {
  }

  /** The Medical list comes out exactly when the Technology test fails and the Medical test passes. */
  lemma MedicalOnlyAfterTechnology(interest: string, goal: string, hobbies: string)
    ensures Ids(Careers(interest, goal, hobbies)) == ["doctor", "medical-researcher"]
        <==> !TechnologyMatch(interest, goal) && MedicalMatch(interest, goal)
  {
  }

  /** The Sports list comes out exactly when both earlier tests fail and the sport test passes. */
  lemma SportsOnlyAfterMedical(interest: string, goal: string, hobbies: string)
    ensures Ids(Careers(interest, goal, hobbies)) == ["athlete", "coach"]
        <==> !TechnologyMatch(interest, goal) && !MedicalMatch(interest, goal) && SportMatch(hobbies)
  {
  }

  /** The fallback comes out exactly when no test passes. */
  lemma FallbackOnlyWhenNothingMatches(interest: string, goal: string, hobbies: string)
    ensures Ids(Careers(interest, goal, hobbies)) == ["generalist"]
        <==> !TechnologyMatch(interest, goal) && !MedicalMatch(interest, goal) && !SportMatch(hobbies)
  {
  }

  /** An empty stored profile (no fields at all) gets the fallback list. */
  lemma EmptyProfileGetsFallback()
    ensures FakeCareerEngine(map[]).careers == FallbackCareers
  {
    EmptyFieldsMatchNothing();
  }

  /**
   * The sport test lower-cases the hobbies first: any five characters that
   * lower-case to "sport" ("Sport", "SPORT", "sPoRt", ...) make it pass.
   */
  lemma SportMatchesAnyCase(hobbies: string, i: int)
    requires 0 <= i && i + 5 <= |hobbies|
    requires forall k :: 0 <= k < 5 ==> LowerChar(hobbies[i + k]) == "sport"[k]
    ensures SportMatch(hobbies)
  {
    var lowered := ToLower(hobbies);
    assert lowered[i..i + 5] == "sport";
    assert OccursAt(lowered, "sport", i);
  }


  /** Empty interest and goal pass neither the Technology nor the Medical test. */
  lemma EmptyFieldsMatchNothing()
    ensures !TechnologyMatch("", "") && !MedicalMatch("", "")
  {
  }

  /** So "I love Sports", with no interest and no goal, gives the Sports list. */
  lemma SportScenario()
    ensures Careers("", "", "I love Sports") == SportsCareers
    ensures SportsCareers[0].id == "athlete" && SportsCareers[0].recommended
  {
    var hobbies := "I love Sports";
    assert hobbies[7] == 'S' && hobbies[8] == 'p' && hobbies[9] == 'o' && hobbies[10] == 'r' && hobbies[11] == 't';
    SportMatchesAnyCase(hobbies, 7);
    EmptyFieldsMatchNothing();
  }

  /** The interest test is case-sensitive: "technology" in lower case does not match it. */
  lemma InterestTestIsCaseSensitive()
    ensures !TechnologyMatch("technology", "")
  {
    assert "technology"[0] != "Technology"[0];
    assert !OccursAt("technology", "Technology", 0);
  }

  /** The Medical scenario: interest "Medical" alone gives two careers, "doctor" first and recommended. */
  lemma MedicalScenario()
    ensures var cs := FakeCareerEngine(map["interest" := "Medical", "goal" := "", "hobbies" := ""]).careers;
      |cs| == 2 && cs[0].id == "doctor" && cs[0].recommended
  {
    assert OccursAt("Medical", "Medical", 0);
  }
}
