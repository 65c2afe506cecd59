# AfterLife: postcode handling, marketplace filter and places search

AfterLife is a bereavement-support web application. It has a single-page
React front end (`src/App.jsx`) and a serverless function
(`netlify/functions/places.js`) that finds local funeral suppliers through a
maps text-search API. This project models the deterministic logic of both
and proves properties about it.

**Front end** (`src/App.jsx`)

- `getPostcodeArea` upper-cases a postcode, removes every whitespace
  character, and returns the greedy match of `[A-Z]{1,2}\d{1,2}[A-Z]?` at
  the start (`Postcode.PostcodeArea`).
- The search box on the marketplace page replaces the global postcode when
  the whole input is a UK postcode (`Postcode.IsFullPostcode`,
  `Postcode.PostcodeAfterSearchInput`).
- The chat page takes the first word-bounded postcode in a message
  (`Postcode.ExtractPostcode`, `Postcode.PostcodeAfterChat`).
- The marketplace lists a supplier when it has the selected type and the
  search names its location, its postcode or its name, or when its postcode
  area starts with the first two characters of the searched area
  (`Marketplace.FilterSuppliers`).

**Places function** (`netlify/functions/places.js`)

- It answers preflight and wrong-method requests and rejects a request
  without a postcode (`Places.Admit`).
- It expands a category into text searches (`Places.SearchQueries`) and
  concatenates their results in query order (`Places.CollectResults`).
- It keeps the first place of each place id (`Places.Dedup`) and fetches
  details for the first ten of them (`Places.TopPlaces`).
- It names each supplier's type after the first keyword rule its lower-cased
  name hits (`Places.Classify`).

Each regular expression is written out as a scanner over characters, with
the engine's greedy choices made explicit:

- `Postcode.Span` is a greedy bounded repetition.
- `Postcode.FullShape` recognises a whole postcode from the right.
  `Postcode.FullPostcodeMatchesPattern` proves it accepts exactly the strings
  that have a left-to-right parse of the pattern.
- `Postcode.FindFrom` returns the leftmost start and, there, the longest
  match. For this pattern that is the match the regex's backtracking order
  picks.

String operations follow JavaScript:

- `toUpperCase` and `toLowerCase` act on ASCII letters.
- `\s` is ECMAScript's whitespace and line-terminator set.
- `trim`, `includes` and `startsWith` are written over `seq<char>`
  (module `Text`).

The maps API, geocoding, the network and React state are not modelled.
Each text search is a function parameter, `search(query)`.

The comment at `src/App.jsx:8` gives "AL1" as the area of "AL1 3JQ".
`getPostcodeArea` (`src/App.jsx:9-15`) removes the space before matching, so
the greedy match is "AL13J" (`PostcodeExamples.GreedyAreaAL`). This model
follows the code. The only caller, `src/App.jsx:651-659`, compares just the
first two characters of the searched area, so its result is the same either
way.

## Model

| member | source | states |
|---|---|---|
| Text.Upper | src/App.jsx:11 | `toUpperCase`: same length, each ASCII lower-case letter mapped to upper case and every other character kept, no lower-case letter left |
| Text.Lower | src/App.jsx:650 | `toLowerCase`: same length, each ASCII upper-case letter mapped to lower case, no upper-case letter left |
| Text.StripSpaces | src/App.jsx:11 | `replace(/\s/g, '')`: no longer than the input, no whitespace left, every character taken from the input |
| Text.StripSpacesAppend | src/App.jsx:657 | removing whitespace from a concatenation removes it from each part |
| Text.StripSpacesNoop | src/App.jsx:11 | text with no whitespace is left unchanged |
| Text.Trim | src/App.jsx:650 | `trim()`: neither end is whitespace, the result occurs in the input, and it has the same non-whitespace characters |
| Text.StartsWith | src/App.jsx:659 | `startsWith(p)`: `p` is a prefix of the string |
| Text.Contains | src/App.jsx:656-658 | `includes(t)`: `t` occurs at some index of the string; every string contains "" |
| Postcode.Normalize | src/App.jsx:11 | the text `getPostcodeArea` matches has no whitespace and no lower-case letter and is no longer than the input |
| Postcode.Span | src/App.jsx:13 | a greedy `p{0,limit}` consumes only characters satisfying `p`, stays in bounds, and stops early only at a character failing `p` |
| Postcode.OutwardPrefix | src/App.jsx:13-14 | the anchored match is either "" or a prefix of the input shaped `[A-Z]{1,2}\d{1,2}[A-Z]?` |
| Postcode.OutwardPrefixLongest | src/App.jsx:13 | the greedy match is at least as long as every prefix of the input that has the outward-code shape |
| Postcode.PostcodeArea | src/App.jsx:9-15 | an empty postcode gives ""; otherwise the area is "" or an outward-code-shaped prefix of the upper-cased, whitespace-free postcode |
| Postcode.AreaIsLongestOutward | src/App.jsx:9-15 | the area is the longest outward-code prefix of the normalised postcode |
| Postcode.AreaLength | src/App.jsx:13-14 | a non-empty area is two to five characters long |
| Postcode.AreaOfNormalized | src/App.jsx:10-14 | postcodes equal after upper-casing and whitespace removal have the same area |
| Postcode.NormalizeNoop | src/App.jsx:11 | text with no whitespace and no lower-case letter is left unchanged by normalising |
| Postcode.AreaIdempotent | src/App.jsx:9-15 | the area of an area is that area |
| Postcode.ShapeGivesParse | src/App.jsx:697 | a string the right-to-left recogniser accepts has a left-to-right parse of the pattern |
| Postcode.ParseGivesShape | src/App.jsx:697 | every left-to-right parse of the pattern is accepted by the right-to-left recogniser |
| Postcode.FullPostcodeMatchesPattern | src/App.jsx:697 | the search-box check holds exactly when the upper-cased input parses as `[A-Z]{1,2}\d{1,2}[A-Z]?\s?\d[A-Z]{2}` |
| Postcode.FullPostcodeLength | src/App.jsx:697 | a whole postcode is 5 to 9 characters long |
| Postcode.FullPostcodeHasArea | src/App.jsx:9-15 | a postcode the search box accepts has a non-empty area |
| Postcode.PostcodeAfterSearchInput | src/App.jsx:697-699 | the global postcode becomes the input exactly when the upper-cased input parses as a whole postcode and is kept otherwise; a new postcode is 5 to 9 characters long and has a non-empty area |
| Postcode.IsFullPostcode | src/App.jsx:697 | the search-box regex: the upper-cased input has the outward-code shape, an optional whitespace character, then a digit and two letters |
| Postcode.MatchAt | src/App.jsx:542 | the chat regex matches `s[i..i + n]`: a whole postcode in any letter case with a word boundary on each side |
| Postcode.MatchesBounded | src/App.jsx:542 | every match of the chat regex lies inside the message and is one to nine characters long |
| Postcode.LongestMatchAt | src/App.jsx:542 | the length found is a match at that index (or 0), and no longer length up to the bound matches |
| Postcode.FindFrom | src/App.jsx:542 | None only when nothing matches from the index on; otherwise a match with no match starting earlier and none longer at its start |
| Postcode.FindFromStartIsFirst | src/App.jsx:542 | the search from index 0 finds nothing only when the message has no match, and otherwise finds the leftmost start and the longest match there |
| Postcode.FirstMatchIsPostcode | src/App.jsx:542 | the leftmost-longest match is a whole postcode written inside the message |
| Postcode.ExtractPostcode | src/App.jsx:542 | a postcode is found exactly when the regex matches somewhere; it passes the whole-postcode check, occurs in the message, and is the match at the leftmost start, the longest one there |
| Postcode.WholeMessageIsExtracted | src/App.jsx:542 | a message that is itself a whole postcode yields exactly itself |
| Postcode.PostcodeAfterChat | src/App.jsx:542-545 | the postcode after a message is the current one or a whole postcode the message contains; with no postcode in the message it is unchanged, and with one it is the leftmost-longest match |
| PostcodeExamples.GreedyAreaAL | src/App.jsx:8-15 | the area of "AL1 3JQ" is "AL13J", not the "AL1" of the comment |
| PostcodeExamples.GreedyAreaM | src/App.jsx:9-15 | the area of "M1 1AA" is "M11A" |
| PostcodeExamples.GreedyAreaSW | src/App.jsx:9-15 | the area of "SW1A 1AA" is "SW1A" |
| PostcodeExamples.AreaIgnoresCaseAndSpaces | src/App.jsx:11 | " al1 3jq " and "AL1 3JQ" normalise alike and have the same area |
| PostcodeExamples.FullPostcodeExamples | src/App.jsx:697 | "al1 3jq" and "SW1A1AA" are whole postcodes and "AL1" is not |
| Marketplace.MatchesType | src/App.jsx:645 | the type button "all" accepts every supplier; any other button only suppliers of that type |
| Marketplace.MatchesSearch | src/App.jsx:648-660 | an empty search accepts every supplier; otherwise the search names the location, the whitespace-free postcode or the name, or both areas are non-empty and the supplier's starts with the first two characters of the searched one |
| Marketplace.Keep | src/App.jsx:644-663 | the filter callback: the type test and the search test both pass |
| Marketplace.FirstTwo | src/App.jsx:659 | `substring(0, 2)` is a prefix of length min(2, length) |
| Marketplace.Filter | src/App.jsx:644 | `suppliers.filter(keep)` keeps input order and lists exactly the suppliers the callback accepts; `FilterCounts` gives the counts |
| Marketplace.FilterCounts | src/App.jsx:644 | each supplier the callback accepts is kept as many times as it occurs, and every other supplier is dropped: the result is a sub-multiset of the input |
| Marketplace.FilterSame | src/App.jsx:644 | callbacks that agree on every supplier give the same list |
| Marketplace.FilterKeepsAll | src/App.jsx:644 | a callback that accepts every supplier keeps the whole list |
| Marketplace.FilterSuppliers | src/App.jsx:644-663 | the listed suppliers keep directory order, are exactly the suppliers that pass the type and search tests, and have the selected type unless it is "all" |
| Marketplace.FilterSuppliersLast | src/App.jsx:644-663 | the last supplier of a directory is listed after the others' result exactly when it passes both tests |
| Marketplace.FilterSuppliersCounts | src/App.jsx:644-663 | a supplier that passes is listed as often as it occurs in the directory, any other not at all |
| Marketplace.FilterAgrees | src/App.jsx:644-663 | two searches that keep the same suppliers list the same suppliers |
| Marketplace.FilterAllWithoutSearch | src/App.jsx:645-649 | type "all" with no search lists the whole directory in order |
| Marketplace.BlankTrimsToEmpty | src/App.jsx:650 | a search of whitespace only trims to "" |
| Marketplace.BlankSearchKeepsType | src/App.jsx:648-660 | a search of whitespace only filters by type alone, like no search |
| Marketplace.SearchByNameFinds | src/App.jsx:658 | searching for a supplier's name in any letter case lists it when its type is selected |
| Marketplace.SearchByPostcodeFinds | src/App.jsx:657 | searching for a supplier's postcode in any letter case and spacing lists it when its type is selected |
| MarketplaceExamples.AreaAL10 | src/App.jsx:9-15 | the area of "AL10 9AB" is "AL10" |
| MarketplaceExamples.HertfordshireArea | src/App.jsx:9-15 | the stonemason's postcode AL10 9AB has area "AL10" |
| MarketplaceExamples.CrossingPrefix | src/App.jsx:659 | "AL10" starts with the first two characters of "AL13J", the area of AL1 3JQ |
| MarketplaceExamples.AreaMatchKeeps | src/App.jsx:659 | a supplier whose area starts with the first two characters of the searched area is listed when its type is selected |
| MarketplaceExamples.AreaMatchCrossesDistricts | src/App.jsx:659 | a search for AL1 3JQ also lists a supplier at AL10 9AB |
| MarketplaceExamples.FloristsKept | src/App.jsx:644-663 | without a search the florist button keeps the two florists and drops the funeral director and the stonemason |
| MarketplaceExamples.FloristsOnly | src/App.jsx:644-663 | the florist button without a search lists the two florists of a four-supplier directory, in order |
| Places.HasPostcode | netlify/functions/places.js:70 | the postcode field counts as given when it is present and not "" |
| Places.Admit | netlify/functions/places.js:59-72 | the request goes on exactly for a POST whose body parses and has a non-empty postcode; OPTIONS gets 200 "", another method 405, an unreadable body 500 and a missing postcode 400 |
| Places.SingleCategory | netlify/functions/places.js:83 | a category is searched on its own when it is present, not "" and not "all" |
| Places.SearchQueries | netlify/functions/places.js:83-125 | a category other than none, "" or "all" gives its table entry, or itself when the table lacks it; otherwise the six default searches |
| Places.TableEntriesNonEmpty | netlify/functions/places.js:84-109 | every category of the table lists at least one search |
| Places.SearchQueriesNonEmpty | netlify/functions/places.js:111-125 | every request makes at least one search |
| Places.Gathered | netlify/functions/places.js:110-129 | the results of each query's search, appended in query order |
| Places.GatheredMembers | netlify/functions/places.js:110-129 | a place is collected exactly when some query's search returned it |
| Places.CollectResults | netlify/functions/places.js:110-129 | the results are the concatenation of each query's search results in query order |
| Places.FirstOccurrences | netlify/functions/places.js:131-139 | the places among the first `n` that are the first with their id, in order |
| Places.Deduplicated | netlify/functions/places.js:131-139 | the first place of each id over the whole result list |
| Places.FirstOfIdUnseen | netlify/functions/places.js:135 | a place is the first with its id exactly when its id is not among the ids seen before it |
| Places.FirstOccurrencesIds | netlify/functions/places.js:131-139 | keeping first occurrences loses no id |
| Places.FirstOccurrencesDistinct | netlify/functions/places.js:131-139 | the kept places have pairwise distinct ids |
| Places.FirstOccurrencesSubsequence | netlify/functions/places.js:131-139 | the kept places appear in input order |
| Places.FirstOccurrencesKeepsFirst | netlify/functions/places.js:131-139 | the first place with each id is kept |
| Places.Dedup | netlify/functions/places.js:131-139 | the loop returns the first place of each id, in input order: distinct ids, the same set of ids as the input, no more places than the input, and every first occurrence kept |
| Places.TopPlaces | netlify/functions/places.js:142 | `slice(0, 10)` is the prefix of length min(10, length) |
| Places.TopPlacesOfResults | netlify/functions/places.js:131-142 | the places whose details are fetched are at most ten, have distinct ids and come from the results; there are ten when the results hold ten distinct ids, and otherwise every id is covered |
| Places.Hits | netlify/functions/places.js:154-176 | one `else if` test: the lower-cased name includes one of the rule's keywords |
| Places.FirstHit | netlify/functions/places.js:151-176 | the type is the default or the type of one of the rules |
| Places.FirstHitWins | netlify/functions/places.js:154-176 | a rule that hits, with no earlier rule hitting, decides the type |
| Places.FirstHitDefault | netlify/functions/places.js:151-176 | when no rule hits, the type is "funeral-director" |
| Places.Classify | netlify/functions/places.js:150-176 | the type of a name is one the classifier can give: the default or a rule's type |
| Places.RuleTypesAreCategories | netlify/functions/places.js:84-109 | every rule's type is a category of the search table |
| Places.ClassifiedTypesAreCategories | netlify/functions/places.js:150-176 | every classified type is a category the search table knows |
| Places.CategoriesAreTypes | netlify/functions/places.js:84-109 | every category of the search table is the default type or some rule's type |
| PlacesExamples.PetCrematorium | netlify/functions/places.js:154 | "Pet Crematorium" is a crematorium: the first rule hits it |
| PlacesExamples.WoodlandBurialGround | netlify/functions/places.js:155-156 | "Woodland Burial Ground" is a cemetery, because the cemetery rule comes before the natural-burial rule |
| PlacesExamples.HarpendenIsMusician | netlify/functions/places.js:154-163 | "Harpenden Funeral Services" is a musician: it contains "harp" and hits no earlier rule |
| PlacesExamples.GateExamples | netlify/functions/places.js:59-72 | a preflight request gets 200, GET gets 405, a body without a postcode gets 400 "Postcode required", and a POST with a postcode goes on |
| PlacesExamples.QueryExamples | netlify/functions/places.js:111 | a known category gives its table entry, an unknown one itself, and "all" or "" the default searches |

## Left out

- React rendering, page navigation, component state and the static
  directory of suppliers in `src/App.jsx` are left out. The filter is
  modelled over any directory, and the examples use a four-supplier sample.
- The chat request that `handleSend` (`src/App.jsx:532-567`) sends to the chat function is
  left out; it is network I/O. So is `netlify/functions/chat.js`.
- Postcode geocoding and the 400 "Invalid postcode" answer
  (`netlify/functions/places.js:74-78`) are left out. Both depend on an
  external API, so the model proceeds whenever a postcode is present.
- The text-search and place-details API calls, coordinates, the search
  radius and the `categoryToPlaceTypes` table are left out. They are network
  calls or are unused by the modelled code.
- Places.CollectResults: the default branch's concurrent `Promise.all` is
  modelled as the same searches in order. Only the order of the flattened
  results is observable here.
- The supplier record built for each fetched place
  (`netlify/functions/places.js:178-189`) and the success response are left
  out. They copy API fields that are not modelled.
- Text.Upper: only ASCII letters change case. JavaScript's `toUpperCase`
  also maps other characters, and some of them map to ASCII letters: "ſ"
  becomes "S", "ı" becomes "I", "ß" becomes "SS" and "ﬁ" becomes "FI". The
  case-insensitive regexes at `src/App.jsx:542` and `src/App.jsx:697` are
  not affected. Without the `u` flag, case-insensitive matching never maps
  a non-ASCII character to an ASCII one (the Canonicalize operation of
  ECMA-262).
- Postcode.PostcodeArea: `getPostcodeArea` upper-cases before matching
  (`src/App.jsx:11`), so the characters above can become area letters. In
  JavaScript the area of "ſw1a 1aa" is "SW1A"; in this model it is "".
- Text.Lower: only ASCII letters change case. JavaScript also maps other
  Unicode letters, and a few of them to ASCII: the Kelvin sign (U+212A) becomes
  "k" and "İ" (U+0130) becomes "i" followed by a combining dot. A search or a
  supplier field holding such characters can match differently in
  JavaScript at `src/App.jsx:650-658`.
- Places.Admit: the body is read as optional strings. Non-string JSON values
  for `postcode` or `category`, such as numbers or `true`, are not modelled.
- Places.SearchQueries: a category named like a property inherited by every
  JavaScript object (such as `constructor`) would be looked up on the
  object's prototype. The model treats such a category as missing from the
  table.
- Postcode.PostcodeArea: a `null` or `undefined` argument is not modelled;
  only strings, including "", are.
