# Skills catalog and time-budget recommender, in Dafny

This project models the core logic of a React application that helps people
turn hours they spend on screens into skills they could learn. The application
has four logic pieces, and each is modelled here:

- **The recommendation engine** (`getSmartSkillRecommendations` in
  `src/components/TimeCalculator.tsx`). It takes an hour budget `h` and the
  catalog and returns a list of skills in this order:
  1. quick wins: hours ≤ 0.3h, at most three categories;
  2. achievable skills: hours in (0.3h, h], at most four categories;
  3. stretch goals: hours in (h, 1.5h], at most two categories;
  4. the first `floor(h / 300)` language skills;
  5. every other affordable non-language skill, ordered by how close its hours
     are to `h`.

  A tier visits its first categories, up to its cap. For each of them it
  takes the best skill of the category's group. In the achievable and stretch
  tiers, that skill is dropped when its id is already in the list. The
  category then yields nothing, not its next-best skill.
- **The time budget** of the same component. It has six activities with
  their hours and three edit operations. It also derives a total, the share of
  a day, week, month or year that the total fills, and a motivational message.
- **The catalog browser** (`src/components/SkillsBrowser.tsx`). It covers:
  - the category-and-search filter;
  - the per-category counts;
  - the category buttons;
  - the selector state and its reset button.
- **The catalog queries** (`src/data/index.ts`) and **the catalog load**
  (`src/App.tsx`). The load sorts a copy of the catalog by category and
  clears the loading flag whether or not the sort throws.

Modules:
- `Prelude`: in `prelude.dfy`. It holds `Option`, `Filter`, JavaScript `slice` and distinctness.
- `Sorting`: in `sorting.dfy`. It is a stable insertion sort under a comparator. Lemmas prove that the result is sorted, is a permutation and is stable, and that its head is the first minimum.
- `Text`: in `text.dfy`. It holds `toLowerCase`, `includes`, the default string order of `sort()`, and `parseFloat`.
- `Types`: in `types.dfy`. It holds the skill record, the first-appearance list of categories, and per-category counts.
- `Catalog` (`catalog.dfy`), `SkillsBrowser` (`browser.dfy`), `Recommendation` (`recommendation.dfy`), `TimeBudget` (`time_budget.dfy`) and `App` (`app.dfy`) follow the source files.

Where the source is imperative, the model is too:
- The engine is a method with the three tier loops. Its grouping step
  `groupByCategory` is a method that fills a map in a loop.
- `categoryStats` and `getSkillsCountByCategory` are counting loops.
- The activities are an array inside a class whose methods update one entry in place.
- The browser and the app state are classes.

Each method is proved against a specification function or predicate:
- the engine's methods against `Recommend`, `CategoriesOf`, `SkillsByCategory`, `PushedSoFar`, `AddPicks`, `Bests` and `IsBestOf`;
- the counting loops against `CountIn`;
- the calculator's methods against `HoursFromInput`, `Increased`, `Decreased` and `Total`;
- the browser's methods against `FilteredSkills`, through `Shown`;
- the app's load against `SortedCatalog`. Lemmas prove the listed properties about those functions.

## Model

| member | source | states |
|---|---|---|
| Recommendation.GetSmartSkillRecommendations | src/components/TimeCalculator.tsx:37-116 | The list the method builds with its three tier loops and its two spread-pushes is `Recommend(h, allSkills)`. |
| Recommendation.ZeroBudgetEmpty | src/components/TimeCalculator.tsx:38 | A budget of zero recommends nothing, for every catalog. |
| Recommendation.RecommendParts | src/components/TimeCalculator.tsx:66-113 | For a non-zero budget, the result is three parts in order: the tier picks, then the selected language skills, then the tail. |
| Recommendation.SelectedLanguages | src/components/TimeCalculator.tsx:40-43 | The selected skills are language skills taken from the input. For a non-negative budget, they are the first `min(floor(h/300), number of language skills)` language skills in catalog order. |
| Recommendation.LanguageCount | src/components/TimeCalculator.tsx:40-43 | The language skills in the result are exactly the selected ones, in catalog order. For h ≥ 0 there are `min(floor(h/300), number of language skills)` of them. |
| Recommendation.LanguageBlock | src/components/TimeCalculator.tsx:102 | The selected language skills fill the positions between the tier picks and the tail. No position before or after them holds a language skill. |
| Recommendation.TiersDisjoint | src/components/TimeCalculator.tsx:45-51 | For h > 0, no hour value lies in two tiers. Together the three tiers cover exactly the hours up to 1.5h. A value of exactly h is achievable, not stretch. |
| Recommendation.TierMembers | src/components/TimeCalculator.tsx:45-51 | A tier holds exactly the skills of the given (non-language) list whose hours lie within its bounds. |
| Recommendation.WithinStretchBound | src/components/TimeCalculator.tsx:45-51 | For h ≥ 0, every non-language skill in the result has hours ≤ 1.5h, and every tail skill has hours ≤ h. |
| Recommendation.GroupByCategory | src/components/TimeCalculator.tsx:53-60 | The keys are the categories in order of first appearance, and each key's group is the category's skills in their order. |
| Types.CategoriesOf | src/components/TimeCalculator.tsx:53-60 | The list of categories has no repeats and holds exactly the categories of the skills present. |
| Types.CategoriesInFirstAppearanceOrder | src/components/TimeCalculator.tsx:53-60 | Of any two listed categories, the earlier-listed one occurs in the skills before the first skill of the later one. |
| Recommendation.TierCategories | src/components/TimeCalculator.tsx:68-69 | A tier loop visits distinct categories, each held by some member of the tier, and at most `cap` of them. They are a prefix of the first-appearance list. When fewer than `cap` are visited, every category of the tier is visited. |
| Recommendation.PushTierPicks | src/components/TimeCalculator.tsx:68-100 | One tier loop appends the picks of the tier's first `min(cap, categories)` categories. With the duplicate check on, it skips any pick whose id is already present. |
| Recommendation.PushGroups | src/components/TimeCalculator.tsx:69-76 | The loop over the first `n` keys of a grouping pushes, in order, the head of each sorted group. |
| Recommendation.PushHead | src/components/TimeCalculator.tsx:70-75 | For a non-empty group, the loop body pushes the group's best element: the least key, and the earliest such skill among ties. It skips that element when the duplicate check is on and its id is already present. For an empty group it pushes nothing. |
| Recommendation.PickIsBest | src/components/TimeCalculator.tsx:71-75 | A category present in a tier yields exactly one pick from that category. The pick has the least key in its group, and no earlier skill of the group has an equal key, because the sort is stable. |
| Recommendation.Pick | src/components/TimeCalculator.tsx:71-75 | A category's pick is at most one skill, and it is a member of that category. |
| Recommendation.Bests | src/components/TimeCalculator.tsx:69-76 | The picks over a list of categories number at most one per category, and each comes from one of those categories. |
| Recommendation.TierBests | src/components/TimeCalculator.tsx:68-100 | Every pick of a tier is a skill of the given (non-language) list whose hours lie in that tier. |
| Recommendation.AddPicks | src/components/TimeCalculator.tsx:87-99 | Pushing picks only extends the list, and only with picks. Without the duplicate check, every pick is pushed. |
| Recommendation.TierPicks | src/components/TimeCalculator.tsx:66-100 | The three tier loops push only input skills that lie in one of the three tiers. |
| Recommendation.TierBestsSpec | src/components/TimeCalculator.tsx:68-100 | A tier yields `min(cap, categories)` picks: 3, 4 and 2 for the three tiers. Pick `i` belongs to the tier's `i`-th category. Each pick is the best of its group: the fewest hours for quick wins and stretch goals, the distance closest to 0.7h for achievable skills. Ties go to the earlier skill. |
| Recommendation.TierBestsDistinct | src/components/TimeCalculator.tsx:68-100 | The picks of one tier never repeat. |
| Recommendation.AddPicksDistinct | src/components/TimeCalculator.tsx:87-99 | With the duplicate-id check on, pushing picks onto a repeat-free list keeps it free of repeats. |
| Recommendation.AddPicksKeepsAll | src/components/TimeCalculator.tsx:87-99 | When the picks have unique ids and none of them shares an id with the list, the duplicate check skips nothing. |
| Recommendation.DedupeNeverFires | src/components/TimeCalculator.tsx:87-99 | For catalogs with unique ids and h > 0, the tier picks are the three tiers' picks one after another. The duplicate checks of lines 87 and 97 never drop a pick, because the tiers are disjoint. |
| Recommendation.Recommend | src/components/TimeCalculator.tsx:37-116 | Every recommended skill comes from the input. |
| Recommendation.RecommendDistinct | src/components/TimeCalculator.tsx:87-105 | When the input has no repeated skill, neither does the result. |
| Recommendation.RecommendUniqueIds | src/components/TimeCalculator.tsx:87-105 | When the input ids are unique, no id occurs twice in the result. |
| Recommendation.TailCandidates | src/components/TimeCalculator.tsx:104-106 | The tail candidates are exactly the non-language skills that no earlier part includes (by id) and that fit the budget. |
| Recommendation.Tail | src/components/TimeCalculator.tsx:104-111 | The tail holds exactly the unselected non-language skills whose hours fit the budget. |
| Recommendation.TailOrder | src/components/TimeCalculator.tsx:104-111 | The tail is ordered by non-decreasing distance of hours to h. Skills at equal distance keep their catalog order. The tail is a permutation of its candidates. |
| TimeBudget.Presets | src/components/TimeCalculator.tsx:16-23 | There are six preset activities, each at zero hours. |
| TimeBudget.Total | src/components/TimeCalculator.tsx:34 | When no entry's hours are negative, the total is non-negative and no entry's hours exceed it. |
| TimeBudget.TotalUpdate | src/components/TimeCalculator.tsx:34 | Replacing one entry's hours changes the total by exactly the difference. |
| Text.ParseFloat | src/components/TimeCalculator.tsx:124 | A number is read exactly when, after leading white space and one optional sign, there follows a digit, or a point and then a digit. The number's magnitude lies between the value of the integer digits and that value plus one. It equals that value when nothing follows the digits. A minus sign negates the number. |
| TimeBudget.HoursFromInput | src/components/TimeCalculator.tsx:124 | The parsed hours are never negative, and are either zero or the value `parseFloat` reads. A non-negative parsed value is taken as it is. |
| TimeBudget.DecimalInput | src/components/TimeCalculator.tsx:124 | The input "3.5" is read as 3.5 hours. |
| TimeBudget.TrailingTextInput | src/components/TimeCalculator.tsx:124 | The input "2h" is read as 2 hours. |
| TimeBudget.NegativeInput | src/components/TimeCalculator.tsx:124 | The input "-5" is clamped to 0 hours. |
| TimeBudget.TextInput | src/components/TimeCalculator.tsx:124 | The input "abc" is read as 0 hours. |
| TimeBudget.Decreased | src/components/TimeCalculator.tsx:138 | A step down is never negative and never raises a non-negative value. |
| TimeBudget.StepsRestore | src/components/TimeCalculator.tsx:130-140 | A step up followed by a step down restores a non-negative value. A step down at zero stays at zero. |
| TimeBudget.TimeCalculator.constructor | src/components/TimeCalculator.tsx:26-27 | The initial state is the six preset activities and the daily timeframe. |
| TimeBudget.TimeCalculator.UpdateActivityHours | src/components/TimeCalculator.tsx:123-128 | Only the entry at `index` changes, and it takes the parsed, clamped hours. All hours stay non-negative, and the total moves by the difference. |
| TimeBudget.TimeCalculator.IncreaseHours | src/components/TimeCalculator.tsx:130-134 | Only the entry at `index` changes; it gains 0.5 hours, and the total grows by 0.5. All hours stay non-negative. |
| TimeBudget.TimeCalculator.DecreaseHours | src/components/TimeCalculator.tsx:136-140 | Only the entry at `index` changes; it loses 0.5 hours, floored at zero. All hours stay non-negative, and the total never grows. |
| TimeBudget.TimeCalculator.SetTimeframe | src/components/TimeCalculator.tsx:27 | Selecting a timeframe changes the timeframe and leaves the activities alone. |
| TimeBudget.MaxHours | src/components/TimeCalculator.tsx:152 | Every timeframe holds a positive number of hours, so the percentage never divides by zero. |
| TimeBudget.TimePercentage | src/components/TimeCalculator.tsx:150-154 | The percentage is at most 100, and non-negative for a non-negative total. Up to the timeframe's hours it is exactly total / max × 100; from there on it is 100. |
| TimeBudget.TimeCalculator.PercentageInRange | src/components/TimeCalculator.tsx:150-154 | In every valid state, the total is non-negative and the percentage lies between 0 and 100. |
| TimeBudget.MessageLevel | src/components/TimeCalculator.tsx:142-148 | The first message appears exactly for zero hours, and the last exactly from 24 hours on. |
| TimeBudget.MessageLevelMonotone | src/components/TimeCalculator.tsx:142-148 | More hours never give an earlier message. |
| TimeBudget.MotivationalMessage | src/components/TimeCalculator.tsx:142-148 | The message shown is the message of the total's level. |
| SkillsBrowser.FilteredSkills | src/components/SkillsBrowser.tsx:19-29 | A skill is kept exactly when both conditions hold. First, its category is the selected one, or every category is selected. Second, the query is empty or occurs, lower-cased, in the lower-cased name, description or category. The result is an order-preserving subsequence of the skills. |
| SkillsBrowser.ShowAllIsIdentity | src/components/SkillsBrowser.tsx:21-23 | With `'Все'` selected and an empty query, every skill is shown, in order. |
| SkillsBrowser.FilteredIdempotent | src/components/SkillsBrowser.tsx:19-29 | Filtering the filtered list again changes nothing. |
| SkillsBrowser.CategoryWithinAll | src/components/SkillsBrowser.tsx:19-29 | For the same query, a single category shows a subsequence of what `'Все'` shows: the part of it in that category. |
| SkillsBrowser.CategoryButtonIsCategoryQuery | src/components/SkillsBrowser.tsx:21 | With an empty query, a category button shows what `getAllSkillsByCategory` returns when both run on the same list. In the application the browser is given App's sorted copy, while `getAllSkillsByCategory` reads the unsorted catalog. |
| SkillsBrowser.CategoryStats | src/components/SkillsBrowser.tsx:31-37 | The counting loop has a key for exactly the categories present. Each key holds that category's number of skills, which is at least one. |
| SkillsBrowser.CategoryButtons | src/components/SkillsBrowser.tsx:12 | The buttons are `'Все'` followed by exactly the catalog's categories, in strictly increasing string order. When no category is named `'Все'`, no button repeats. |
| SkillsBrowser.Browser.constructor | src/components/SkillsBrowser.tsx:15-16 | Initially every category is selected and the query is empty. |
| SkillsBrowser.Browser.SelectCategory | src/components/SkillsBrowser.tsx:73 | A category click changes the selection and nothing else. |
| SkillsBrowser.Browser.SetQuery | src/components/SkillsBrowser.tsx:57 | Typing changes the query and nothing else. |
| SkillsBrowser.Browser.ResetFilters | src/components/SkillsBrowser.tsx:126-129 | The reset button clears the query and selects every category, so every skill is shown again. |
| Catalog.AllSkillsData | src/data/index.ts:6 | The catalog's length is the sum of the three lists' lengths, and it holds them one after another. |
| Catalog.SkillsByCategory | src/data/index.ts:10-12 | The result is exactly the catalog skills of that category, in catalog order. |
| Catalog.SkillsByDifficulty | src/data/index.ts:14-16 | The result is exactly the catalog skills of that difficulty, in catalog order. |
| Catalog.SkillsByTimeRange | src/data/index.ts:18-22 | The result is exactly the skills with hours between both bounds inclusive, in catalog order. It is empty when the minimum exceeds the maximum. |
| Catalog.AllCategories | src/data/index.ts:24-26 | The categories are strictly increasing, so they do not repeat. Their set is the set of catalog categories. |
| Sorting.SortDistinct | src/data/index.ts:25 | Sorting a list without repeats gives a list without repeats. |
| Text.StrLeIsTotalPreorder | src/data/index.ts:25 | The default string order of `sort()` is total and transitive. |
| Catalog.SkillsCountByCategory | src/data/index.ts:28-37 | The counting loop has one key per catalog category. Each key holds that category's number of skills, which is at least one. |
| Catalog.TotalSkillsCount | src/data/index.ts:28-41 | `getTotalSkillsCount()` is the sum of the counts of the sorted categories that `getSkillsCountByCategory` returns. |
| Types.CategoryCountsSum | src/components/SkillsBrowser.tsx:31-37 | The per-category counts on the category buttons add up to the number of skills. |
| Catalog.SearchSkills | src/data/index.ts:43-50 | A skill is found exactly when the lower-cased query occurs in its lower-cased name, its description or one of its learning outcomes. The category is not searched. The result keeps catalog order. |
| Catalog.SearchEmptyQuery | src/data/index.ts:43-50 | The empty query finds the whole catalog. |
| Catalog.SearchIgnoresCase | src/data/index.ts:44 | A query and its lower-cased form find the same skills. |
| Text.LowerStr | src/data/index.ts:44 | Lower-casing keeps the length and maps each character on its own. |
| Text.LowerStrIdempotent | src/data/index.ts:44 | Lower-casing twice is the same as lower-casing once. |
| Text.Contains | src/components/SkillsBrowser.tsx:24-26 | Every string includes the empty string. A needle that is found is no longer than the string searched. |
| Text.ContainsOccurrence | src/components/SkillsBrowser.tsx:24-26 | `includes` is true exactly when the needle occurs at some position. |
| App.SortedCatalog | src/App.tsx:14-16 | The sorted copy is a permutation of the catalog. The catalog itself is a value and is not reordered. |
| App.SortedByCategory | src/App.tsx:14-16 | Under a locale order that is a total preorder, the sorted copy is non-decreasing by category. |
| App.SortedCatalogStable | src/App.tsx:14-16 | Skills whose categories tie keep their catalog order. |
| Sorting.Sort | src/App.tsx:14-16 | The sort keeps the length and the multiset of elements. |
| Text.Lower | src/data/index.ts:44 | A Latin capital letter A-Z and a Cyrillic capital letter А-Я map to the small letter 32 code points above. A Cyrillic capital Ѐ-Џ, Ё among them, maps to the small letter 80 above. No other character is turned into a small Latin letter. |
| Sorting.SortStable | src/App.tsx:14-16 | The insertion sort keeps the relative order of every class of tied elements. |
| Sorting.SortSorted | src/App.tsx:14-16 | Under a total preorder, the sort's result is sorted. |
| Sorting.SortHead | src/components/TimeCalculator.tsx:71-74 | The first element after the sort is the first least element of the input. |
| App.AppState.constructor | src/App.tsx:8-9 | Initially there are no skills and the flag shows loading. |
| App.AppState.LoadSkills | src/App.tsx:12-23 | Afterwards the flag no longer shows loading. On success the skills are the sorted copy; when the sort throws, they stay as they were. |
| App.LoadOnce | src/App.tsx:8-23 | A fresh app that loads once ends up not loading. On the error path it holds no skills; otherwise it holds a permutation of the catalog. |

## Left out

- Rendering, Tailwind classes, the progress-bar colours and the difficulty badges are not modelled. They are presentation only.
- `SkillCard` and `SkillModal` are not part of this model. They are icon lookup, text slicing and browser side effects.
- The display toggle `showAllSkills`, and the first-ten slice of `matchedSkills`, are not modelled because only the rendering uses them.
- The React machinery is not modelled: `useEffect` re-runs, `useMemo` caching, the `setTimeout(loadSkills, 500)` delay and `console.error`. The engine takes the total as its parameter `h`, which is what the effect at `TimeCalculator.tsx:33-121` passes it. The stored `totalHours` state is the function `TotalHours`.
- `getRandomSkills` depends on `Math.random`.
- Numbers are exact reals, not IEEE-754 doubles. Products such as `0.3 * h` and the tier boundaries may round differently in the source, and the `toFixed` formatting of the display is not modelled.
- `ParseFloat` covers leading white space, a sign, digits and a decimal fraction. It does not read exponents or `Infinity`.
- Text.ParseFloat: the contract pins the magnitude to within one of the integer digits' value. It does not state the exact value of the fraction digits, which only the function's definition gives.
- `Lower` only lower-cases the Latin letters A-Z and the Cyrillic letters А-Я and Ѐ-Џ. Full Unicode case mapping is not modelled.
- `localeCompare` is the parameter `collate`, which the lemmas require to be a total preorder. The locale's own collation rules are not modelled.
- `StrLe` compares code points. The default `sort()` compares UTF-16 code units, and the two differ only for characters outside the Basic Multilingual Plane.
- Category names are assumed to be neither array indices such as "1" nor names that `Object.prototype` already holds, such as "constructor", "toString" or "__proto__". The source uses plain objects as maps, and such names break it in four ways:
  - for an index name, `Object.keys` does not list the categories in insertion order;
  - in `groupByCategory` (`TimeCalculator.tsx:56-57`), a prototype name finds an inherited member that has no `push`, so the push throws a TypeError;
  - in `categoryStats` (`SkillsBrowser.tsx:31-37`), a prototype name such as "toString" starts from an inherited function, so `+ 1` concatenates a string instead of counting;
  - in `categoryStats` and in `getSkillsCountByCategory`, "__proto__" loses its entry, because the inherited `__proto__` setter ignores a value that is not an object (section B.2.2.1.2 of ECMA-262), so the assignment adds no key and leaves the prototype as it was.
- The data files `skills-data*.ts` are not part of this model. Every query takes the catalog, or its three lists, as a parameter.
- Recommendation.PushHead: each group is sorted into a new sequence, whereas the source sorts its category array in place. The groups are not read again after their sort, so the difference cannot be observed.
- TimeBudget.TimeCalculator.UpdateActivityHours: the spread copy in the source shares its activity objects with the previous state and with `PRESET_ACTIVITIES`, so writing `hours` also changes those objects. The model's entries are values, so that aliasing is not captured.
- TimeBudget.TimeCalculator.IncreaseHours: the same aliasing applies to its write at `TimeCalculator.tsx:131-132`, and the model does not capture it.
- TimeBudget.TimeCalculator.DecreaseHours: the same aliasing applies to its write at `TimeCalculator.tsx:137-138`, and the model does not capture it.
- The edit methods require an index within the six entries; the buttons only pass such indices.
- App.AppState.LoadSkills: whether the sort throws is the boolean parameter `sortThrows`. The model does not say why a sort would throw.
- Recommendation.WithinStretchBound requires h ≥ 0, and TiersDisjoint requires h > 0. The budget is a sum of non-negative hours, so it is never negative.
