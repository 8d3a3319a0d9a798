# EmploiItem job-offer list: a Dafny model

This project models the client-side view logic of the `EmploiItem` React
component of a small job board. The component takes a search term, a location
term and the parent's `likedJobs` set, and shows the offers of the shared offer
list. Four parts of it are modelled:

- the **offer filter** (`filteredEmplois`). An offer is kept when it is visible,
  the lower-cased search term occurs in its lower-cased title, candidate name,
  category or description (when it has one), and the location term is empty or
  occurs, lower-cased, in its location. The filter is stable.
- the **like toggle**. Clicking an offer's heart copies the liked set, removes
  the offer's title if present or adds it otherwise, and hands the copy to
  `setLikedJobs`. The heart is filled when the title is in the set.
- the **popup state**. Two booleans, `showEmail` and `showDetails`, are shared
  by all rendered offers; a `selectedEmploi` reference starts as null. A popup of
  an offer renders only when its flag is set and that offer is the selected one.
  Nothing ever sets `selectedEmploi`, so no popup ever renders.
- the **render mode**: "Loading..." while the offer list is empty, the
  "Aucune offre d'emploi trouvée." line when the filter keeps nothing, and the
  list otherwise.

Modules: `Wrappers` (Option), `Text` (lower-casing and substring search),
`Offers` (the offer record and the filter), `Likes` (the toggle and the liked
set's state cell), `Disclosure` (the popup state as a class) and `Render` (the
render mode). The filter and render mode are functions with lemmas. The like
handler and the popup handlers change state, so they are methods of classes
whose fields are the React state cells.

The two popup flags are shared by every rendered offer, not kept per offer:
a click on any offer's title or "Postuler" button flips the same flag.

## Model

| member | source | states |
|---|---|---|
| Text.Lower | frontend/src/components/EmploiItem/EmploiItem.jsx:50-54 | lower-casing keeps the length and maps each character, A-Z to a-z and every other character to itself |
| Text.LowerIdempotent | frontend/src/components/EmploiItem/EmploiItem.jsx:50-54 | lower-casing a lower-cased string changes nothing |
| Text.LowerEmpty | frontend/src/components/EmploiItem/EmploiItem.jsx:54 | a term lower-cases to "" exactly when it is "", so testing the raw location against "" agrees with testing its lower-cased form |
| Text.LowerChar | frontend/src/components/EmploiItem/EmploiItem.jsx:50-54 | an ASCII capital becomes the letter 32 code points higher, any other character is unchanged, and no result is a capital |
| Text.Contains | frontend/src/components/EmploiItem/EmploiItem.jsx:50-54 | `haystack.includes(needle)`: the needle is a prefix of the haystack or of one of its suffixes |
| Text.ContainsIff | frontend/src/components/EmploiItem/EmploiItem.jsx:50-54 | the recursive `includes` model holds exactly when the needle starts at some index of the haystack |
| Text.ContainsEmpty | frontend/src/components/EmploiItem/EmploiItem.jsx:50-54 | the empty term occurs in every field |
| Text.ContainsTooLong | frontend/src/components/EmploiItem/EmploiItem.jsx:54 | a term longer than the field never occurs in it |
| Offers.MatchesSearch | frontend/src/components/EmploiItem/EmploiItem.jsx:50-53 | the lower-cased search term occurs in the lower-cased title, candidate name, category, or description when present |
| Offers.MatchesLocation | frontend/src/components/EmploiItem/EmploiItem.jsx:54 | the location term is empty or, lower-cased, occurs in the lower-cased location |
| Offers.Keep | frontend/src/components/EmploiItem/EmploiItem.jsx:49-54 | the filter callback: visible, matching the search term and matching the location term |
| Offers.Filter | frontend/src/components/EmploiItem/EmploiItem.jsx:47-56 | the output is no longer than the input, and an offer is in the output exactly when it is in the input and is visible, matches the search term and matches the location term |
| Offers.FilterIsSubsequence | frontend/src/components/EmploiItem/EmploiItem.jsx:47-56 | the output is a subsequence of the input: every output offer sits at its own input position, and those positions increase (no reordering) |
| Offers.FilterMultiplicity | frontend/src/components/EmploiItem/EmploiItem.jsx:47-56 | each kept offer occurs in the output as often as in the input and each rejected one never, so nothing is duplicated |
| Offers.VisibleOnly | frontend/src/components/EmploiItem/EmploiItem.jsx:49 | reference definition: the offers whose visibility is true, in list order |
| Offers.FilterEmptyTerms | frontend/src/components/EmploiItem/EmploiItem.jsx:49-54 | with empty search and location terms the output equals the visible offers of the input, in order |
| Offers.KeepCaseInsensitive | frontend/src/components/EmploiItem/EmploiItem.jsx:50-54 | whether one offer is kept depends only on the lower-cased search and location terms |
| Offers.FilterCaseInsensitive | frontend/src/components/EmploiItem/EmploiItem.jsx:50-54 | search and location terms that lower-case alike give the same output |
| Offers.InvisibleExcluded | frontend/src/components/EmploiItem/EmploiItem.jsx:49 | an offer whose visibility is false is never output, whatever the terms |
| Offers.LocationMismatchExcluded | frontend/src/components/EmploiItem/EmploiItem.jsx:54 | a non-empty location term absent from the offer's location excludes it even when the search term matches |
| Offers.MissingDescriptionExcluded | frontend/src/components/EmploiItem/EmploiItem.jsx:53 | an offer with no description whose title, candidate and category lack the term is excluded, with no error |
| Offers.EmptyDescriptionLikeNone | frontend/src/components/EmploiItem/EmploiItem.jsx:53 | an empty description matches exactly as an absent one does, so treating a present description as searched agrees with the falsy test |
| Offers.UpperCaseSearchFindsCategory | frontend/src/components/EmploiItem/EmploiItem.jsx:50-52 | the search term "SALES" keeps an offer whose category is "Sales" |
| Offers.OtherLocationExcluded | frontend/src/components/EmploiItem/EmploiItem.jsx:54 | the location term "Paris" drops an offer in "Lyon" that matches the search term |
| Likes.Toggle | frontend/src/components/EmploiItem/EmploiItem.jsx:74-80 | the key is in the new set exactly when it was not in the old one, and every other key is in the new set exactly when it was in the old one |
| Likes.ToggleTwice | frontend/src/components/EmploiItem/EmploiItem.jsx:74-80 | toggling the same key twice gives back the original set |
| Likes.IsLiked | frontend/src/components/EmploiItem/EmploiItem.jsx:84 | the heart is filled when the offer's title is in the liked set |
| Likes.SameTitleSharesLike | frontend/src/components/EmploiItem/EmploiItem.jsx:84 | liked status (`IsLiked`, the title in the set) depends only on the title: offers with one title are liked together and flip together |
| Likes.LikedJobs.constructor | frontend/src/components/EmploiItem/EmploiItem.jsx:7 | the liked set starts empty; `likedJobs` is a prop whose initial value belongs to the parent component, so this start state is a modelling choice |
| Likes.LikedJobs.OnLikeClick | frontend/src/components/EmploiItem/EmploiItem.jsx:73-81 | the handler's copy is the toggle of the set as it was before the click, and the stored set becomes that copy |
| Disclosure.PopupState.constructor | frontend/src/components/EmploiItem/EmploiItem.jsx:8-10 | both flags start false and no offer is selected |
| Disclosure.PopupState.OnTitleClick | frontend/src/components/EmploiItem/EmploiItem.jsx:94 | the details flag is negated; the email flag and the selection are unchanged |
| Disclosure.PopupState.OnPostulerClick | frontend/src/components/EmploiItem/EmploiItem.jsx:113 | the email flag is negated; the details flag and the selection are unchanged |
| Disclosure.PopupState.OnEmailClose | frontend/src/components/EmploiItem/EmploiItem.jsx:121 | the email flag becomes false; the details flag and the selection are unchanged |
| Disclosure.PopupState.OnDetailsClose | frontend/src/components/EmploiItem/EmploiItem.jsx:138 | the details flag becomes false; the email flag and the selection are unchanged |
| Disclosure.PopupState.EmailPopupShown | frontend/src/components/EmploiItem/EmploiItem.jsx:118 | the email popup of an offer renders when `showEmail` is set and that offer is the selected one |
| Disclosure.PopupState.DetailsPopupShown | frontend/src/components/EmploiItem/EmploiItem.jsx:135 | the details popup of an offer renders when `showDetails` is set and that offer is the selected one |
| Disclosure.NoPopupWithoutSelection | frontend/src/components/EmploiItem/EmploiItem.jsx:118-135 | with no selected offer, neither the email popup nor the details popup renders for any offer (`EmailPopupShown`, `DetailsPopupShown` are the guards) |
| Disclosure.DoubleClickRestores | frontend/src/components/EmploiItem/EmploiItem.jsx:94-113 | two title clicks followed by two "Postuler" clicks leave both flags and the selection as they were |
| Disclosure.EmailCloseTwice | frontend/src/components/EmploiItem/EmploiItem.jsx:121 | two closes of the email popup leave the state of one close: email flag false, details flag and selection unchanged |
| Disclosure.DetailsCloseTwice | frontend/src/components/EmploiItem/EmploiItem.jsx:138 | two closes of the details popup leave the state of one close: details flag false, email flag and selection unchanged |
| Disclosure.PopupsNeverRender | frontend/src/components/EmploiItem/EmploiItem.jsx:8-138 | from a fresh component, after any sequence of the four clicks, no popup renders for any offer |
| Render.MissingListLoading | frontend/src/components/EmploiItem/EmploiItem.jsx:43-61 | a missing offer list renders the loading placeholder, whatever the terms |
| Render.ViewOf | frontend/src/components/EmploiItem/EmploiItem.jsx:60-67 | Loading exactly when the source list is empty; "no results" exactly when it is not empty and the filter keeps nothing; otherwise the non-empty filtered list |
| Render.EmptyTermsListVisible | frontend/src/components/EmploiItem/EmploiItem.jsx:47-67 | with empty terms and at least one visible offer, the list of the visible offers is rendered |
| Render.AllInvisibleNoResults | frontend/src/components/EmploiItem/EmploiItem.jsx:49-67 | a loaded list of invisible offers renders "no results", never Loading or the list |

## Left out

- The fetch effect (lines 15-41): a network request with a bearer token, JSON decoding and a dispatch into a reducer whose code is not part of this model. The offer list is a parameter instead.
- The context hooks `useEmploiContext` and `useCandidatContext`: their code is not part of this model.
- backend/server.js: Express middleware, route wiring, configuration, the database connection and the listening socket are I/O plumbing over libraries that are not part of this model.
- JSX markup, CSS classes, the icons and the `console.log` calls: rendering and logging only. The render mode is modelled as a three-way value, not as markup.
- Text.Lower: maps only the ASCII letters A-Z, because full Unicode `toLowerCase` (multi-character mappings, locale-independent special cases) is out of reach; every other character is left as it is.
- Disclosure.NoPopupWithoutSelection: the guard `selectedEmploi === emploi` compares object references; the model compares offer values. The two agree here because the selection always stays null, so the guard is false in both readings.
- Offers.MatchesSearch: the source tests `emploi.description &&`, where an empty description is falsy; the model searches every present description. Offers.EmptyDescriptionLikeNone proves the two readings agree.
- Likes.LikedJobs.constructor: the parent component that owns `likedJobs` is not part of this model; the empty start set is assumed.
- The props `searchTerm` and `location` are modelled as strings and `likedJobs` as a set; an undefined `searchTerm` or `location`, which would make `toLowerCase` throw, is not modelled.
- Offer fields are modelled as strings and `visibility` as a boolean; JSON values of other types (a missing title, which would make `toLowerCase` throw, or a non-boolean visibility) are not modelled.
- React's batching of state updates and stale closures: each click is modelled as one handler run against the state of the latest render.
