# Career navigator: decision logic

A Dafny model of the decision logic of a small career-navigation web
application. Everything else in the application is presentation.

- **Profile classifier** (`FakeEngine`). This models `fakeCareerEngine`, a
  first-match-wins rule chain over the stored profile's `interest`, `goal` and
  `hobbies`. It yields one of four fixed career lists: Technology, Medical,
  Sports or the fallback. Each career names its routes on the landing-page map.
- **Career-map page** (`CareerMap`). This models the stage table and the two
  fixed routes, `best` and `alternate`. The start stage is chosen by age. The
  page state is the pair (`routeType`, `activeNode`). Three events change it:
  advance along the active route, jump to a stage, and switch route. The pure
  step function `Step` gives the meaning. The class `CareerMapPage` holds the
  two fields, and each of its methods is proved to perform one `Step`.
- **Landing-page route selector** (`CareerNavigationMap`). This models the
  lookup of the selected career, which falls back to the first career. It also
  models the filter of the fixed `route1..route4` table down to that career's
  routes, the initial active route, the highlighted nodes and the dashed
  routes. The class `RouteSelector` holds the active route, which the route
  buttons change.
- **Profile form** (`StudentForm`). This models the form's nine fields, as the
  class `ProfileForm`. Its invariant is that a preset choice and a typed choice
  of interest (and of goal) exclude each other. It also models the guard that
  enables the submit button and the record that submitting stores.
- `JsText` models the JavaScript built-ins that the logic depends on:
  `String.prototype.includes`, `toLowerCase` and `Array.prototype.indexOf`.
  `Wrappers` gives the `Option` type. `Option` stands for `undefined` results.

Browser storage is not modelled. A stored value that the source reads becomes
a parameter: the stored profile, the stored `selectedCareer` and the student's
age. What `submitProfile` writes becomes its result. The stored profile is a
parsed JSON object of strings, `map<string, string>`, and an absent key reads
as `""`.

The page never checks that the age-based start stage lies on the active
route. For the current tables it does: `StartNodeOnBothRoutes` proves that the
start stage is on both routes for every age.

## Model

| member | source | states |
|---|---|---|
| `JsText.Includes` | src/lib/fakeEngine.ts:11 | `s.includes(p)` is true exactly when `p` occurs in `s` at some index. The test is case-sensitive, and `""` occurs everywhere. |
| `JsText.ToLower` | src/lib/fakeEngine.ts:58 | Lower-casing keeps the length and lower-cases every character in place. |
| `JsText.IndexOf` | src/pages/CareerMap.tsx:105 | `indexOf` returns -1 exactly when the element is absent. Otherwise it returns an index that holds the element, with no earlier occurrence. |
| `FakeEngine.Field` | src/lib/fakeEngine.ts:4-6 | A field missing from the stored profile reads as `""`. A present field reads as its stored value. |
| `FakeEngine.TechnologyMatch` | src/lib/fakeEngine.ts:11 | The Technology test holds exactly when "Technology" occurs in the interest or "Software" occurs in the goal, case-sensitively. |
| `FakeEngine.MedicalMatch` | src/lib/fakeEngine.ts:38 | The Medical test holds exactly when "Medical" occurs in the interest or "Doctor" occurs in the goal, case-sensitively. |
| `FakeEngine.SportMatch` | src/lib/fakeEngine.ts:58 | The sport test holds exactly when "sport" occurs in the lower-cased hobbies. |
| `FakeEngine.Careers` | src/lib/fakeEngine.ts:11-88 | Every branch gives a non-empty list. The first career is the only recommended one. Every career names at least one route, and each route is one of route1..route4. |
| `FakeEngine.FakeCareerEngine` | src/lib/fakeEngine.ts:1-94 | The returned `student` is the stored profile, unchanged. The careers are those chosen by the rule chain over its `interest`, `goal` and `hobbies`, and they form a well-formed list. |
| `FakeEngine.TechnologyWins` | src/lib/fakeEngine.ts:11-34 | If `interest` contains "Technology" or `goal` contains "Software", the ids are data-scientist, software-engineer and mentor, in that order. This holds whatever the hobbies are. |
| `FakeEngine.MedicalOnlyAfterTechnology` | src/lib/fakeEngine.ts:38-55 | The result is the doctor/medical-researcher list if and only if the Technology test fails and the Medical test passes. |
| `FakeEngine.SportsOnlyAfterMedical` | src/lib/fakeEngine.ts:58-75 | The result is the athlete/coach list if and only if the Technology and Medical tests fail and the lower-cased hobbies contain "sport". |
| `FakeEngine.FallbackOnlyWhenNothingMatches` | src/lib/fakeEngine.ts:78-88 | The result is `[generalist]` if and only if no test passes. |
| `FakeEngine.EmptyProfileGetsFallback` | src/lib/fakeEngine.ts:2-6 | A stored profile with no fields gets the fallback list. |
| `FakeEngine.EmptyFieldsMatchNothing` | src/lib/fakeEngine.ts:11 | An empty interest and an empty goal pass neither the Technology test nor the Medical test. |
| `FakeEngine.SportMatchesAnyCase` | src/lib/fakeEngine.ts:58 | Any five consecutive hobby characters that lower-case to "sport" make the sport test pass, in any mix of cases. |
| `FakeEngine.SportScenario` | src/lib/fakeEngine.ts:58-74 | Hobbies "I love Sports", with an empty interest and goal, give the Sports list. Its recommended first career is "athlete". |
| `FakeEngine.InterestTestIsCaseSensitive` | src/lib/fakeEngine.ts:11 | An interest of "technology" in lower case fails the Technology test. |
| `FakeEngine.MedicalScenario` | src/lib/fakeEngine.ts:38-55 | The profile {interest "Medical", goal "", hobbies ""} gives two careers. The first is "doctor", and it is recommended. |
| `CareerMap.NodeById` | src/pages/CareerMap.tsx:76 | The lookup succeeds exactly for ids in the node table, and it returns a table node with that id. The missing case is explicit. |
| `CareerMap.NodeIdsListed` | src/pages/CareerMap.tsx:29-67 | The node table's ids are start, school, exam, govt, private, learn, cert and job, in that order. |
| `CareerMap.RoutesWellFormed` | src/pages/CareerMap.tsx:29-73 | Each route has seven stages and ends at "job". No route repeats a stage. Every stage is in the node table, so `nodeById` never fails on a route stage. |
| `CareerMap.AgeOrDefault` | src/pages/CareerMap.tsx:26 | A missing or empty age reads as 15. A present age reads as itself. |
| `CareerMap.StartNodeByAge` | src/pages/CareerMap.tsx:89-93 | The start stage is "school" iff age < 17, "exam" iff 17 <= age <= 20, and "learn" iff age > 20. |
| `CareerMap.StartNodeOnBothRoutes` | src/pages/CareerMap.tsx:89-99 | For every age, the start stage is in the node table and on both routes. |
| `CareerMap.MissingAgeStartsAtSchool` | src/pages/CareerMap.tsx:26 | Without a stored age the page opens on "school". |
| `CareerMap.AdvanceIn` | src/pages/CareerMap.tsx:104-108 | The new active stage after "next" on a list of stages: the stage after the first occurrence of the active one, or the active one itself when it is last or absent. Its properties are the next three rows. |
| `CareerMap.AdvanceInByIndex` | src/pages/CareerMap.tsx:104-108 | The recursive advance agrees with the source's rule through `indexOf`: stay put at index -1 or at the last index, otherwise move to index+1. |
| `CareerMap.AdvanceInSpec` | src/pages/CareerMap.tsx:104-108 | On a route without repeated stages, advancing from the stage at index i, with i not the last index, moves to the stage at index i+1. A stage off the route, or the last stage, stays where it is. |
| `CareerMap.AdvanceInStaysOnRoute` | src/pages/CareerMap.tsx:104-108 | Advancing either stays put or lands on a stage of the route. |
| `CareerMap.AdvanceSpec` | src/pages/CareerMap.tsx:104-108 | The same three cases for the two page routes, `best` and `alternate`. |
| `CareerMap.Flip` | src/pages/CareerMap.tsx:239-241 | Re-routing always changes the route type. |
| `CareerMap.Step` | src/pages/CareerMap.tsx:104-108 | The page's transition function. "Next" replaces the active stage by `Advance` on the active route. A click sets the active stage to the clicked id. Re-routing flips the route type. Its properties are `StepKeepsInvariant`, `SelectJumpsAnywhere`, `ToggleTwiceRestores` and the `NextTimes` lemmas, and the page methods perform it. |
| `CareerMap.InitialStateValid` | src/pages/CareerMap.tsx:98-99 | The initial state's active stage is in the node table. |
| `CareerMap.StepKeepsInvariant` | src/pages/CareerMap.tsx:104-241 | Advance (lines 104-108), a click on a table stage (line 175) and re-routing (lines 239-241) each keep the active stage in the node table. |
| `CareerMap.RunKeepsInvariant` | src/pages/CareerMap.tsx:99-241 | Every sequence of possible events keeps the active stage in the node table. |
| `CareerMap.SelectJumpsAnywhere` | src/pages/CareerMap.tsx:175 | A click sets the active stage to the clicked id, whether or not it is on the route. The route type is unchanged. |
| `CareerMap.ToggleTwiceRestores` | src/pages/CareerMap.tsx:239-241 | Re-routing flips the route type and keeps the active stage. Re-routing twice restores the state. |
| `CareerMap.NextIsNoOpOffRoute` | src/pages/CareerMap.tsx:105-106 | On the alternate route, advancing from "govt" changes nothing, because "govt" is not on that route. |
| `CareerMap.NextAlongRoute` | src/pages/CareerMap.tsx:104-107 | One advance from index i of the active route reaches index min(i+1, 6). The route is unchanged. |
| `CareerMap.AdvanceTimesAlong` | src/pages/CareerMap.tsx:104-108 | On a route without repeated stages, k advances from index i reach index min(i+k, last). |
| `CareerMap.NextTimesIsAdvanceTimes` | src/pages/CareerMap.tsx:104-108 | Pressing the advance button n times keeps the route type and moves the active stage n times along the active route. |
| `CareerMap.NextTimesAlongRoute` | src/pages/CareerMap.tsx:104-108 | k advances from index i reach index min(i+k, 6). |
| `CareerMap.NextAtJobStaysAtJob` | src/pages/CareerMap.tsx:105-106 | Any number of advances at "job" stays at "job". |
| `CareerMap.StartReachesJobWithinSix` | src/pages/CareerMap.tsx:89-108 | From the age-based start stage on either route, six or more advances reach "job". |
| `CareerMap.CareerMapPage.constructor` | src/pages/CareerMap.tsx:98-99 | The page opens on the best route at the age-based start stage. |
| `CareerMap.CareerMapPage.MoveNext` | src/pages/CareerMap.tsx:104-108 | The button performs one advance step. It keeps the route type and the invariant. |
| `CareerMap.CareerMapPage.SelectNode` | src/pages/CareerMap.tsx:175 | A click on a table stage performs one select step and keeps the invariant. |
| `CareerMap.CareerMapPage.ToggleRoute` | src/pages/CareerMap.tsx:239-241 | The button performs one toggle step and keeps the invariant. |
| `CareerMap.CareerMapPage.ActiveNodeData` | src/pages/CareerMap.tsx:205 | The info panel's `nodeById(activeNode)` always finds a table node with the active id. |
| `CareerNavigationMap.RouteTableIds` | src/components/sklg/CareerNavigationMap.tsx:41-66 | The table lists route1..route4 in that order, with no id repeated. They are exactly `KnownRouteIds`, the set that every engine route id is drawn from (`FakeEngine.Careers`). |
| `CareerNavigationMap.RouteTableNodes` | src/components/sklg/CareerNavigationMap.tsx:30-66 | Every route has four nodes and runs from "start" to "destination". All its nodes are in the graph. |
| `CareerNavigationMap.FindCareer` | src/components/sklg/CareerNavigationMap.tsx:117 | `find` returns nothing exactly when no career has the id. Otherwise it returns the first career with that id. |
| `CareerNavigationMap.SelectCareer` | src/components/sklg/CareerNavigationMap.tsx:115-118 | The shown career is one of the careers. When a career has the selected id, it is the first such career, the one `find` returns. Otherwise, or when nothing is selected, it is the first career. |
| `CareerNavigationMap.FilterRoutes` | src/components/sklg/CareerNavigationMap.tsx:120-122 | The filter keeps exactly the routes whose id the career names, and it never grows the list. |
| `CareerNavigationMap.FilterRoutesAppend` | src/components/sklg/CareerNavigationMap.tsx:120-122 | Filtering distributes over concatenation, so it keeps the table's order. |
| `CareerNavigationMap.VisibleRoutes` | src/components/sklg/CareerNavigationMap.tsx:120-122 | The visible routes are exactly the table routes that the career names. |
| `CareerNavigationMap.DataScientistRoutesInTableOrder` | src/components/sklg/CareerNavigationMap.tsx:120-122 | data-scientist's routes [route2, route4, route1] show as route1, route2, route4. This is table order. |
| `CareerNavigationMap.InitialActiveRoute` | src/components/sklg/CareerNavigationMap.tsx:124 | The initial active route is the first visible route's id. It is absent only when no route is visible. |
| `CareerNavigationMap.KnownRouteIsVisible` | src/components/sklg/CareerNavigationMap.tsx:120-122 | A career whose first route id is a known id has at least one visible route. |
| `CareerNavigationMap.EngineCareerHasActiveRoute` | src/components/sklg/CareerNavigationMap.tsx:113-124 | For every stored profile and every stored selection, the shown career has a visible route. So the map opens with an active route. |
| `CareerNavigationMap.ActiveRouteData` | src/components/sklg/CareerNavigationMap.tsx:126-128 | The active route's data is a visible route with the active id. It is absent only when no visible route has that id. |
| `CareerNavigationMap.IsOnActiveRoute` | src/components/sklg/CareerNavigationMap.tsx:228 | A node is drawn highlighted when the active route's data exists and lists the node. `HighlightedIffOnActiveRoute` states it in terms of the visible routes. |
| `CareerNavigationMap.InactiveRoutes` | src/components/sklg/CareerNavigationMap.tsx:187-189 | The dashed routes are exactly the visible routes other than the active one. |
| `CareerNavigationMap.VisibleRoutesDistinct` | src/components/sklg/CareerNavigationMap.tsx:120-122 | No two visible routes share an id. |
| `CareerNavigationMap.HighlightedIffOnActiveRoute` | src/components/sklg/CareerNavigationMap.tsx:224-229 | A node is highlighted exactly when it lies on the visible route whose id is active. |
| `CareerNavigationMap.RouteSelector.constructor` | src/components/sklg/CareerNavigationMap.tsx:113-124 | The selector starts with the selected career, its visible routes and the first visible route as active. |
| `CareerNavigationMap.RouteSelector.ClickRoute` | src/components/sklg/CareerNavigationMap.tsx:145-148 | A route button makes that visible route the active one and keeps the invariant. |
| `CareerNavigationMap.RouteSelector.ActiveRoute` | src/components/sklg/CareerNavigationMap.tsx:126-128 | In a valid state the solid route exists whenever some route is visible. It is a visible route with the active id. |
| `StudentForm.Chosen` | src/pages/Student.tsx:26-27 | The typed value wins when it is non-empty. The result is one of the two values, and it is empty only when both are. |
| `StudentForm.SavedProfile` | src/pages/Student.tsx:22-30 | The stored record has exactly the seven keys. Interest and goal follow "typed wins over preset". The other five fields are copied unchanged. |
| `StudentForm.CanSubmit` | src/pages/Student.tsx:200-207 | The negated `disabled` expression: name, age, education and location are non-empty, and so are a preset or typed interest and a preset or typed goal. Hobbies are not required. |
| `StudentForm.SubmitEnabledIffRequiredSaved` | src/pages/Student.tsx:200-207 | The button is enabled exactly when the saved name, age, education, interest, goal and location are all non-empty. Hobbies are not required. |
| `StudentForm.SavedChoiceUnderExclusion` | src/pages/Student.tsx:26-27 | Under the form invariant the saved interest is interest + customInterest, and likewise for the goal, so no choice is lost. |
| `StudentForm.TechnologyPresetLeadsToTechnologyList` | src/pages/Student.tsx:101-107 | Choosing the "Technology" preset and submitting leads the engine to the Technology list. |
| `StudentForm.ProfileForm.constructor` | src/pages/Student.tsx:8-17 | Every field starts empty, and the invariant holds. |
| `StudentForm.ProfileForm.SetName` | src/pages/Student.tsx:54 | This sets the name and leaves every other field unchanged. |
| `StudentForm.ProfileForm.SetAge` | src/pages/Student.tsx:66 | This sets the age and leaves every other field unchanged. |
| `StudentForm.ProfileForm.ChooseEducation` | src/pages/Student.tsx:76-83 | This sets the education to one of school, undergraduate or graduate, and nothing else changes. |
| `StudentForm.ProfileForm.ChoosePresetInterest` | src/pages/Student.tsx:104-107 | This sets the preset interest, clears the typed one and keeps the invariant. |
| `StudentForm.ProfileForm.TypeCustomInterest` | src/pages/Student.tsx:127-130 | This sets the typed interest, clears the preset and keeps the invariant. |
| `StudentForm.ProfileForm.ChoosePresetGoal` | src/pages/Student.tsx:141-144 | This sets the preset goal, clears the typed one and keeps the invariant. |
| `StudentForm.ProfileForm.TypeCustomGoal` | src/pages/Student.tsx:164-167 | This sets the typed goal, clears the preset and keeps the invariant. |
| `StudentForm.ProfileForm.SetHobbies` | src/pages/Student.tsx:180 | This sets the hobbies and leaves every other field unchanged. |
| `StudentForm.ProfileForm.SetLocation` | src/pages/Student.tsx:193 | This sets the location and leaves every other field unchanged. |
| `StudentForm.ProfileForm.SubmitProfile` | src/pages/Student.tsx:19-38 | This stores the saved record, whose interest and goal are non-empty. The separately stored `studentAge` and `studentEducation` equal the record's `age` and `education`. |

## Left out

- Browser storage and JSON parse/stringify are not modelled. Stored values are parameters, and `submitProfile`'s writes are its result.
- `JsText.ToLower`: only ASCII letters are lower-cased. JavaScript's `toLowerCase` also maps other Unicode letters, some of them to several characters.
- `CareerMap.AgeOrDefault`: the model takes the age as an already-parsed integer. Three things are not modelled: how `Number()` parses the stored text, its `NaN` result for non-numeric text, and fractional ages. The form's number input accepts decimals, so a stored "20.5" reads as 20.5, which opens on "learn". A `NaN` age fails both comparisons and would also start at "learn".
- `CareerMap.tsx` reads the stored profile once, when the module is first evaluated (lines 25-26). `App.tsx` imports the page statically (line 12), so that read happens when the application loads, before the form is submitted. Until the next reload, the map therefore opens on the stage for the age stored when the application loaded ("school", age 15, if nothing was stored then), whatever age the student has just entered. The model takes the age when the page state is created, so this stale read is not modelled.
- Node coordinates, icons, the `curve` path text, SVG path strings, labels' layout, CSS class choices and animation are presentation only. This includes the "on route" styling of a stage at `CareerMap.tsx:169`.
- Navigation calls are not modelled: "Change interest" and the redirect after submit.
- `CareerMap.CareerMapPage.SelectNode` requires a stage of the node table, because clicks come only from the rendered table.
- `StudentForm.ProfileForm.SubmitProfile` requires the submit guard, because the button is disabled otherwise.
- `CareerNavigationMap.SelectCareer` requires a non-empty career list. The source would fail on an empty list, and the engine never returns one (`FakeEngine.Careers`).
- Some pages are not part of this model: the career list page, the analyzing page's timed redirect, the hero, timeline and college-recommendation sections, the index page and the router. They hold no decision logic. The career list page stores `selectedCareer`, which is the `selected` parameter of `SelectCareer`. It also stores `availableRoutes`, which no page reads, and navigates to the career map.
- The classifier's purity (the same input gives the same output) needs no lemma, because Dafny functions are deterministic.
