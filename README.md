# Recipe finder — a verified model of its search, favourites and recipe view

The recipe finder is a single-page React application over TheMealDB's public API. It lists
12 "Chicken" recipes on start-up. It searches by ingredient and, when that finds nothing, by a
category derived from the query through a small synonym table. It also filters by category,
opens a recipe in a modal and keeps a list of favourite recipe ids in browser storage. The
modal turns the recipe's 20 numbered ingredient/measure slots into an ingredient list, cuts the
free-text instructions into steps and splits the comma-separated tags.

This project models that core in Dafny:

- `wrappers.dfy`: `Option` and `Outcome`. `Outcome` is a value or the failure that a thrown
  request error stands for.
- `seqs.dfy`: the subsequence relation.
- `text.dfy`: the string operations the core relies on. These are `trim`, `toLowerCase`,
  `toUpperCase` (ASCII) and `split` on one character, with their laws: what trim removes, that
  trim is idempotent and when it is the identity, and that splitting and joining are inverses.
- `recipes.dfy`: the recipe record with its 20 ingredient slots.
- `api.dfy`: how a request's reply becomes the value the service functions return or the error
  they throw. A list request reads `data.meals || []`; a detail request reads `data.meals[0]`.
- `recipe_modal.dfy`: the modal's derived data.
  - The ingredient-extraction loop as a method, proved against a recursive specification. The
    specification is characterised by the positions of the kept slots.
  - The instruction splitter for `/\d+\.|\r\n|\n/` as a scanner, proved to cut the text into
    pieces that, interleaved with the matched separators, rebuild it exactly. Blank steps are
    then dropped and the rest trimmed.
  - The tags.
- `app.dfy`: the `App` component as a class `AppState` whose fields are its React state, plus
  the stored favourites and a ghost log of the requests issued.
  - Each handler is a method that takes the replies of the requests it awaits as parameters.
    A list reply is the `Outcome` that `Api.ListOutcome` gives for the decoded response, and
    the recipe-detail reply the one `Api.DetailOutcome` gives.
  - The pure parts beside it: the category derivation, the 12-recipe cut, the not-found
    message and the favourite toggle.

Every method keeps `Valid()`: at most 12 recipes are shown, no request is pending once the
handler has finished, and the stored favourites equal the favourites in memory once anything
has been stored.

The tags are split on commas and trimmed and nothing more (src/components/RecipeModal.tsx:169-175):
empty tags, from "a,,b" or a trailing comma, are kept.

## Model

| member | source | states |
|---|---|---|
| RecipeModal.IsKept | src/components/RecipeModal.tsx:18 | a slot is kept when its ingredient is present and not whitespace only |
| RecipeModal.Entry | src/components/RecipeModal.tsx:19-22 | a kept slot's entry: the trimmed name, and the trimmed measure or "" when it is absent |
| RecipeModal.Ingredients | src/components/RecipeModal.tsx:13-26 | the specification of the ingredient list, one entry per kept slot in slot order; never longer than the slots (characterised by IngredientsAreKeptSlots) |
| RecipeModal.ExtractIngredients | src/components/RecipeModal.tsx:13-26 | the loop over slots 1..20 returns exactly the specified ingredient list, with at most 20 entries |
| RecipeModal.IngredientsAreKeptSlots | src/components/RecipeModal.tsx:15-24 | the list has one entry per kept slot, in slot order: entry k is the trimmed name and measure of the k-th slot whose ingredient is non-blank |
| RecipeModal.KeptPositions | src/components/RecipeModal.tsx:15-18 | the kept positions are strictly increasing in-range indices of non-blank slots, and every non-blank slot is among them |
| RecipeModal.IngredientsAppend | src/components/RecipeModal.tsx:15-24 | extraction distributes over concatenation of slot sequences: no slot's entry depends on another slot |
| RecipeModal.EntryWellFormed | src/components/RecipeModal.tsx:18-22 | an entry's name is non-empty and trimmed; its measure is trimmed, and it is "" when the measure is missing or blank |
| RecipeModal.IngredientsOfEmptySlots | src/components/RecipeModal.tsx:18 | slots with no ingredient contribute nothing |
| RecipeModal.SkippedSlotContinues | src/components/RecipeModal.tsx:18-23 | a blank slot between two filled ones is skipped and the loop goes on to the later slot |
| RecipeModal.SaltFlourExample | src/components/RecipeModal.tsx:15-24 | Salt/1 tsp, a blank name, Flour with an empty measure, then nothing gives [Salt 1 tsp, Flour ""] |
| RecipeModal.DigitRun | src/components/RecipeModal.tsx:31 | the length of the longest run of leading decimal digits (the `\d+` of the pattern) |
| RecipeModal.SeparatorAt | src/components/RecipeModal.tsx:31 | the length of the pattern's match at the start of a string, or 0: the digit alternative first, taking all the digits, then CR LF, then LF |
| RecipeModal.Scan | src/components/RecipeModal.tsx:31 | the scan that tries the pattern at each position from left to right and cuts at each match; it yields at least one piece |
| RecipeModal.SplitInstructions | src/components/RecipeModal.tsx:31 | `split` of the instruction text with the pattern, characterised by SplitInstructionsRebuilds |
| RecipeModal.ScanSeparatorsMatch | src/components/RecipeModal.tsx:31 | every separator the splitter cuts at is digits-then-full-stop, CR LF or LF |
| RecipeModal.ScanRebuilds | src/components/RecipeModal.tsx:31 | the pieces number one more than the separators, and pieces interleaved with separators rebuild the text |
| RecipeModal.SplitInstructionsRebuilds | src/components/RecipeModal.tsx:31 | split is lossless: the pieces and the matched separators, interleaved, give back the instruction text; every separator matches the pattern; no match lies inside a piece; and no match starts inside a piece and runs on into the next separator, so every cut is the leftmost match |
| RecipeModal.ScanPiecesSeparatorFree | src/components/RecipeModal.tsx:31 | no piece contains a line feed or a digit followed by a full stop, so no match lies inside a piece |
| RecipeModal.ScanLeftmost | src/components/RecipeModal.tsx:31 | no piece ends in a digit before a digit separator or in CR before an LF separator, so no cut skips a match that started earlier |
| RecipeModal.NonBlank | src/components/RecipeModal.tsx:32 | keeps a subsequence of the pieces, in order, none of them blank |
| RecipeModal.NonBlankKeepsNonBlank | src/components/RecipeModal.tsx:32 | every non-blank piece is kept as often as it occurs; with NonBlank this pins the filter |
| RecipeModal.TrimEach | src/components/RecipeModal.tsx:33 | each step is the trimmed piece in the same position |
| RecipeModal.Steps | src/components/RecipeModal.tsx:28-34 | the displayed steps: none for absent or empty instructions, else the split's non-blank pieces, trimmed (characterised by the lemmas around it) |
| RecipeModal.StepsWellFormed | src/components/RecipeModal.tsx:28-34 | every step is non-empty, already trimmed and free of separators |
| RecipeModal.StepsOfNothing | src/components/RecipeModal.tsx:29 | missing or empty instructions give no steps |
| RecipeModal.StepsOfBlank | src/components/RecipeModal.tsx:30-32 | whitespace-only instructions give no steps |
| RecipeModal.ThreeSteps | src/components/RecipeModal.tsx:30-33 | "1. a\n2. b 20 c\r\n3. d" gives [a, "b 20 c", d]: a number inside a step that is not followed by a full stop does not split |
| RecipeModal.StepsExample | src/components/RecipeModal.tsx:30-33 | "1. Mix flour.\n2. Bake for 20 min.\r\n3. Cool." gives ["Mix flour.", "Bake for 20 min.", "Cool."] |
| RecipeModal.Tags | src/components/RecipeModal.tsx:165-176 | the displayed tags: none for an absent or empty tag string, else every comma-separated field, trimmed |
| RecipeModal.TagsEmptyIff | src/components/RecipeModal.tsx:165 | no tags are shown exactly when the tag string is absent or empty |
| RecipeModal.TagsOfText | src/components/RecipeModal.tsx:165-176 | one tag per comma plus one, each the trimmed comma-free field, and the fields join back to the tag text |
| Text.Trim | src/App.tsx:40 | `trim`: the leading and then the trailing whitespace removed (characterised by TrimSpec) |
| Text.TrimSpec | src/App.tsx:40 | trim removes exactly a leading and a trailing run of whitespace; the result is empty iff the input is blank, and otherwise starts and ends with non-whitespace |
| Text.TrimEmptyIffBlank | src/App.tsx:40-41 | the trimmed query is empty exactly when the term is whitespace only |
| Text.TrimIdempotent | src/components/RecipeModal.tsx:20-21 | trimming twice is trimming once |
| Text.TrimFixedPoint | src/components/RecipeModal.tsx:33 | trim leaves a string unchanged iff it is empty or starts and ends with non-whitespace |
| Text.LowerChar | src/App.tsx:63-64 | maps A-Z to a-z and leaves every other character alone |
| Text.UpperChar | src/App.tsx:64 | maps a-z to A-Z and leaves every other character alone |
| Text.CaseMapsCompose | src/App.tsx:63-64 | case mappings absorb each other: lower of upper is lower, upper of lower is upper, each is idempotent |
| Text.ToLower | src/App.tsx:63 | same length, each character lower-cased |
| Text.SplitOn | src/components/RecipeModal.tsx:169 | at least one field, none containing the separator |
| Text.SplitOnCount | src/components/RecipeModal.tsx:169 | split gives one more field than there are separators |
| Text.JoinSplitOn | src/components/RecipeModal.tsx:169 | joining the fields of a split gives back the string |
| Text.SplitOnJoin | src/components/RecipeModal.tsx:169 | splitting the join of separator-free fields gives back the fields |
| Api.ListOutcome | src/services/api.ts:33-45 | a failed request fails; a reply with null or no meals gives []; otherwise the meals returned (the same rule as src/services/api.ts:5-17) |
| Api.DetailOutcome | src/services/api.ts:19-31 | a failed request or a null meals field fails; an empty list gives nothing; otherwise the first meal |
| App.NotFoundMessage | src/App.tsx:74-76 | the message is the fixed prefix, the query and the fixed suffix, at those positions |
| App.NotFoundMessageInjective | src/App.tsx:74-76 | different queries give different messages |
| App.Take12 | src/App.tsx:79 | a prefix of at most 12 elements: the whole list when it is short, exactly 12 when it is long |
| App.Take12Idempotent | src/App.tsx:79 | cutting an already cut list changes nothing |
| App.Take12OfPrefix | src/App.tsx:79 | cutting a prefix gives the matching prefix of the cut |
| App.Capitalize | src/App.tsx:64 | same length, first character upper-cased, the rest lower-cased |
| App.LowerOfCapitalize | src/App.tsx:63-64 | capitalising does not change the lower-cased form |
| App.CapitalizeCaseInsensitive | src/App.tsx:64 | queries that differ only in case capitalise alike |
| App.DeriveCategory | src/App.tsx:53-64 | the corrected category derivation: the table entry of the lower-cased query, else the capitalised query (characterised by DeriveCategorySpec) |
| App.DeriveCategorySpec | src/App.tsx:53-64 | a query whose lower-cased form is a table key gets that key's category; any other query gets its capitalised form |
| App.DeriveCategoryCaseInsensitive | src/App.tsx:62-64 | the derived category does not depend on the query's case |
| App.SynonymKeysLowerCase | src/App.tsx:53-60 | every table key is lower-case, so each is reachable from a query |
| App.DeriveCategoryOfSynonym | src/App.tsx:53-63 | any casing of a table key ("VEG", "Fish") gets that key's category |
| App.SynonymValuesStable | src/App.tsx:53-64 | a category from the table derives to itself |
| App.DeriveCategoryIdempotent | src/App.tsx:53-64 | deriving from a derived category changes nothing |
| App.DeriveCategoryExample | src/App.tsx:64 | "tOFU" is not a key and derives to "Tofu" |
| App.DeriveCategoryAsWritten | src/App.tsx:62-64 | the derivation as written: an object-literal lookup that also finds the inherited `constructor` and `__proto__` and yields their string forms |
| App.DeriveCategoryAsWrittenAgrees | src/App.tsx:62-64 | the indexing as written agrees with the table lookup unless the lower-cased query is "constructor" or "__proto__" |
| App.DeriveCategoryAsWrittenConstructor | src/App.tsx:62-64 | for "Constructor" the indexing as written yields the Object constructor's source text, where the table lookup yields "Constructor" |
| App.Without | src/App.tsx:114 | the id is gone, every other id keeps its count, and the order of the rest is kept |
| App.Toggle | src/App.tsx:113-115 | the new favourites: the list without the id when it is a favourite, else the id appended (characterised by the Toggle lemmas) |
| App.ToggleMembership | src/App.tsx:112-115 | after a toggle the id is a favourite iff it was not before; other ids are unaffected |
| App.ToggleRemoves | src/App.tsx:113-114 | toggling a favourite removes it and keeps the others in order |
| App.ToggleAppends | src/App.tsx:113-115 | toggling a non-favourite appends it at the end |
| App.ToggleTwiceRestores | src/App.tsx:112-115 | toggling a non-favourite twice restores the list |
| App.ToggleTwiceMoves | src/App.tsx:112-115 | toggling a favourite twice moves it to the end |
| App.ToggleKeepsDistinct | src/App.tsx:112-115 | a list without duplicates stays without duplicates |
| App.SearchOutcome | src/App.tsx:47-82 | the combined result of the two searches (characterised by SearchOutcomeSpec) |
| App.SearchQueries | src/App.tsx:49-66 | the requests a search issues: the ingredient search, then the category search exactly when the first found nothing (characterised by CategoryQueriedIff) |
| App.SearchOutcomeSpec | src/App.tsx:47-82 | an ingredient failure fails; non-empty ingredient results are used without a category query; otherwise the category outcome decides; nothing is found iff both queries found nothing |
| App.CategoryQueriedIff | src/App.tsx:49-66 | a category query is issued iff the ingredient search succeeded with no results |
| App.AppState.Valid | src/App.tsx:10-18 | the invariant: no request pending, at most 12 recipes shown, no favourites while nothing is stored, and the stored favourites equal to those in memory once stored |
| App.AppState.constructor | src/App.tsx:10-18 | no recipes, no error, no selection, empty query; favourites are the stored list or [] |
| App.AppState.LoadPopularRecipes | src/App.tsx:25-36 | queries "Chicken"; on success shows its first 12 recipes and clears the error; on failure keeps the recipes and sets the load error |
| App.AppState.HandleSearch | src/App.tsx:39-86 | a blank term changes nothing; otherwise the search runs on the trimmed term, as Search states |
| App.AppState.Search | src/App.tsx:43-85 | records the query, issues the queries SearchQueries gives, shows the first 12 results with the not-found message when there are none, and on failure keeps the recipes and sets the search error |
| App.AppState.ResolveSearch | src/App.tsx:47-70 | fails iff the combined outcome fails, otherwise returns its results; logs exactly the requests issued |
| App.AppState.HandleCategoryFilter | src/App.tsx:97-110 | clears the query, queries the category, shows its first 12 recipes or keeps the recipes and sets the category error |
| App.AppState.HandleRecipeClick | src/App.tsx:88-95 | looks the recipe up by id; success selects the detail (possibly none) and keeps the error; failure keeps the selection and sets the detail error |
| App.AppState.CloseModal | src/App.tsx:146 | clears the selection and nothing else |
| App.AppState.ToggleFavorite | src/App.tsx:112-119 | favourites become the toggled list and are stored; nothing else changes |

## Left out

- The network: each request is a parameter carrying its reply (`Outcome`, `Api.Reply`). URL building, `encodeURIComponent`, HTTP status handling and JSON decoding are not modelled. Only the rules by which a decoded reply becomes a result or an error are kept.
- Concurrency: each handler runs to completion with the replies it awaits given up front. The intermediate `loading = true` state, the interleaving of two handlers and a stale reply overwriting a newer one are not modelled.
- Browser storage: the stored favourites are the already decoded `Option<seq<string>>`. The empty stored string, which the source treats as absent, and a malformed stored value, on which `JSON.parse` would throw, are not modelled.
- The mount effect at src/App.tsx:20-23 is the constructor followed by a call of `LoadPopularRecipes`; React's rendering and effect scheduling are not modelled.
- `trim`, `toLowerCase` and `toUpperCase` are modelled on ASCII. Unicode whitespace and non-ASCII case mappings are not.
- The regular expression engine: the instruction pattern is modelled by a hand-written scanner that takes the leftmost match and tries the alternatives in the pattern's order.
- `getRandomRecipe` (src/services/api.ts:47-59) is not called by the application and is not modelled.
- The presentation components (header, search section, grid, card, the modal's markup and overlay click) and console logging are not modelled.
- App.SearchQueries, App.AppState.HandleSearch, App.AppState.Search, App.AppState.ResolveSearch: the category query uses the corrected `DeriveCategory`, not the object-literal lookup as written (see "## Findings"). For a query that lower-cases to "constructor" or "__proto__" the source queries "function Object() { [native code] }" or "[object Object]"; the model logs the capitalised query instead. `DeriveCategoryAsWritten` models that behaviour on its own.
- src/types/Recipe.ts is not part of this model; the recipe record follows the fields the core reads.

## Findings

| source | as written | input that shows it | evidently intended | confidence | as-written member | corrected member |
|---|---|---|---|---|---|---|
| src/App.tsx:62-63 | `map[query.toLowerCase()]` indexes a plain object literal, so it also finds the inherited `constructor` and `__proto__` members, which are truthy | the query "Constructor" makes the fallback query the category "function Object() { [native code] }" | only the six table keys map to a category; "Constructor" falls back to its capitalised form "Constructor" | not executed | App.DeriveCategoryAsWrittenConstructor | App.DeriveCategory |
