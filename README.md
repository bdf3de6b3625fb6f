# Pokédex client: search filter, grid text and error panels

A Dafny model of the logic in a small Next.js/Apollo Pokédex client. The client
fetches a page of Pokémon (`id`, `name`, `image`), lets the user filter them by
name, renders one card per match with a zero-padded `#id` label and a count
badge, and shows an error panel with a message and a status code when loading
fails. Everything here is the part of that behaviour that is plain computation:

- `JsString` (js_string.dfy): the JavaScript string built-ins the client uses:
  `trim`, `toLowerCase`, `includes`, `padStart`, and the decimal text of a count.
- `PokemonTypes` (pokemon_types.dfy): the `Pokemon` record.
- `SearchPokemons` (search_pokemons.dfy): the `useSearchPokemons` hook. The
  fetched list is an input (`Option<seq<Pokemon>>`, `None` before it arrives).
  `filteredPokemons` and `pokemons` are functions. The hook's `searchTerm` state
  is a field of the class `SearchPokemonsHook`, and `handleSearch` is a method
  that replaces it.
- `PokeGrid` (poke_grid.dfy): the text the `PokeGrid` component derives. This
  covers the badge, the cards with their link targets and `#` labels, and the
  empty-state message.
- `ErrorFallbacks`, `HomeError`, `PokemonError` (error_panels.dfy): how the two
  error panels turn an optional `{message, statusCode}` into what they display.

Decisions about what the code does, where it is easy to misread:

- A term that is blank after `trim` returns the fetched list unchanged. Any
  other term is matched untrimmed, so " pika" does not find "Pikachu".
- `PokeGrid` passes its `pokemons` prop to the hook, but the hook takes no
  parameter and filters its own fetched data. The prop only supplies the `N`
  in "(filtrado de N)".
- That suffix appears whenever the term is a non-empty string. A term made only
  of spaces therefore shows the suffix even though nothing was filtered out.
- A card links to `/pokemon/` followed by the raw id. The zero padding is only
  in the `#` label.
- JavaScript's `||` treats `""` and `0` as missing, so an empty message or a
  zero status code falls back to the default, like a missing one.

## Model

| member | source | states |
|---|---|---|
| `JsString.TrimStart` | src/hooks/useSearchPokemons.ts:16 | the result is a suffix of the input, everything dropped is white space, and it does not start with white space |
| `JsString.TrimEnd` | src/hooks/useSearchPokemons.ts:16 | the result is a prefix of the input, everything dropped is white space, and it does not end with white space |
| `JsString.IsBlank` | src/hooks/useSearchPokemons.ts:16 | `!s.trim()` holds exactly when every character of the term is white space (the empty term included) |
| `JsString.Trim` | src/hooks/useSearchPokemons.ts:16 | `trim()` gives the empty (falsy) string exactly when every character is ECMAScript white space; otherwise it starts and ends with a non-space |
| `JsString.ToLowerChar` | src/hooks/useSearchPokemons.ts:22 | an upper-case ASCII letter becomes its lower-case partner, every other character is unchanged, and no upper-case ASCII letter remains |
| `JsString.ToLower` | src/hooks/useSearchPokemons.ts:22 | `toLowerCase()` differs from its input only in ASCII letter case and leaves no upper-case ASCII letter |
| `JsString.ToLowerFoldsCase` | src/hooks/useSearchPokemons.ts:22 | two strings lower-case to the same string exactly when they differ only in ASCII letter case |
| `JsString.Includes` | src/hooks/useSearchPokemons.ts:22 | `includes`, scanning start positions left to right, is true exactly when the search string occurs at some position of the string |
| `JsString.IncludesNeedsEveryChar` | src/hooks/useSearchPokemons.ts:22 | a string lacking one character of the search string does not include it |
| `JsString.RepeatFill` | src/components/PokeGrid.tsx:88 | the filler has the requested length, starts with the fill string and repeats with its period |
| `JsString.PadStart` | src/components/PokeGrid.tsx:88 | `padStart` leaves a long-enough string or an empty fill alone; otherwise the length is the target, the input is a suffix and the prefix repeats the fill |
| `JsString.PadStartSingle` | src/components/PokeGrid.tsx:88 | padding with one character writes that character in every padded position |
| `JsString.NatToString` | src/components/PokeGrid.tsx:26-27 | the decimal text of a count is non-empty and all digits; it starts with '0' only when it is exactly "0" |
| `JsString.NatToStringRoundTrip` | src/components/PokeGrid.tsx:26-27 | reading the decimal text back gives the count |
| `SearchPokemons.NameMatches` | src/hooks/useSearchPokemons.ts:22 | the lower-cased name contains the lower-cased, untrimmed term at some position |
| `SearchPokemons.FilterByName` | src/hooks/useSearchPokemons.ts:20-24 | `filter` returns no more entries than it was given, each taken from the input and matching the term; the lemmas below pin the result |
| `SearchPokemons.Pokemons` | src/hooks/useSearchPokemons.ts:36 | the `pokemons` fallback is the fetched list when present and empty when absent |
| `SearchPokemons.FilteredPokemons` | src/hooks/useSearchPokemons.ts:15-25 | `filteredPokemons` has no more entries than `pokemons`, each taken from it, and for a non-blank term each matches; the lemmas below give the blank, absent, order, completeness, case and idempotence properties |
| `SearchPokemons.FilterByNameIsSubsequence` | src/hooks/useSearchPokemons.ts:20-24 | `filter` returns an order-preserving subsequence of its input |
| `SearchPokemons.FilterByNameCounts` | src/hooks/useSearchPokemons.ts:20-24 | each entry occurs in the result as often as in the input if its name matches, and not at all otherwise |
| `SearchPokemons.FilterByNameMembership` | src/hooks/useSearchPokemons.ts:21-22 | an entry is in the result iff it is in the input and its lower-cased name includes the lower-cased term |
| `SearchPokemons.FilterByNameKeepsAllMatching` | src/hooks/useSearchPokemons.ts:20-24 | a list whose every entry matches is returned unchanged |
| `SearchPokemons.FilterByNameIdempotent` | src/hooks/useSearchPokemons.ts:20-24 | filtering the result again with the same term returns it unchanged |
| `SearchPokemons.FilterByNameSameNeedle` | src/hooks/useSearchPokemons.ts:21-22 | two terms with the same lower-cased form filter any list identically |
| `SearchPokemons.BlankTermReturnsFetchedList` | src/hooks/useSearchPokemons.ts:16-17 | a term made only of white space (the empty term included) returns the fetched list unchanged |
| `SearchPokemons.AbsentDataGivesEmpty` | src/hooks/useSearchPokemons.ts:15-36 | with no fetched data, `filteredPokemons` and `pokemons` are both empty for every term |
| `SearchPokemons.FilteredIsSubsequence` | src/hooks/useSearchPokemons.ts:15-25 | `filteredPokemons` is always an order-preserving subsequence of `pokemons` |
| `SearchPokemons.FilteredSound` | src/hooks/useSearchPokemons.ts:20-24 | for a non-blank term, every returned entry's lower-cased name contains the lower-cased term at some position |
| `SearchPokemons.FilteredComplete` | src/hooks/useSearchPokemons.ts:15-25 | every fetched entry whose lower-cased name contains the lower-cased term is returned |
| `SearchPokemons.BlankIgnoresCase` | src/hooks/useSearchPokemons.ts:16 | lower-casing the term does not change whether it is blank |
| `SearchPokemons.FilteredIgnoresCase` | src/hooks/useSearchPokemons.ts:15-25 | two terms that differ only in ASCII letter case (position by position, the same character or the two cases of one letter) give identical results |
| `SearchPokemons.UpperAndLowerPikaAgree` | src/hooks/useSearchPokemons.ts:22 | for every fetched list, the terms "PIKA" and "pika" give the same result |
| `SearchPokemons.FilteredSameLowered` | src/hooks/useSearchPokemons.ts:16-22 | the result depends on the term only through its lower-cased form |
| `SearchPokemons.FilteredIdempotent` | src/hooks/useSearchPokemons.ts:15-25 | filtering the filtered list again with the same term returns it unchanged |
| `SearchPokemons.UntrimmedTermExample` | src/hooks/useSearchPokemons.ts:16-22 | " pika" is not blank and is matched with its space, so it does not find "Pikachu" |
| `SearchPokemons.UpperCaseTermExample` | src/hooks/useSearchPokemons.ts:22 | "PIKA" finds "Pikachu" |
| `SearchPokemons.CharExample` | src/hooks/useSearchPokemons.ts:20-24 | "char" keeps Charmander and drops Squirtle |
| `SearchPokemons.SearchPokemonsHook.constructor` | src/hooks/useSearchPokemons.ts:12 | the term starts empty, so the first render shows the whole fetched list |
| `SearchPokemons.SearchPokemonsHook.HandleSearch` | src/hooks/useSearchPokemons.ts:27-29 | `handleSearch` replaces the term; the filtered view becomes the filter of the same fetched list by the new term |
| `PokeGrid.IdLabel` | src/components/PokeGrid.tsx:88 | the label is "#" then the id left-padded to at least three characters; it ends with the id, and an id of three or more characters is not padded |
| `PokeGrid.IdLabelZeros` | src/components/PokeGrid.tsx:88 | every position between "#" and the id holds '0' |
| `PokeGrid.IdLabelExamples` | src/components/PokeGrid.tsx:88 | "7" gives "#007", "25" gives "#025", "150" gives "#150", "1000" gives "#1000" |
| `PokeGrid.RenderCards` | src/components/PokeGrid.tsx:36-37 | one card per entry, in the same order, each rendered from its own entry |
| `PokeGrid.CardHref` | src/components/PokeGrid.tsx:37 | the link is "/pokemon/" followed by the raw id, which can be read back from it |
| `PokeGrid.RenderCard` | src/components/PokeGrid.tsx:37-88 | a card is keyed by the id, links to it unpadded, shows the image, the name as text and alt text, and a "#" label ending with the id |
| `PokeGrid.GridCardsFollowFiltered` | src/components/PokeGrid.tsx:36-37 | the grid has one card per filtered entry, in filtered order, keyed by the id and linking to "/pokemon/" and the raw unpadded id |
| `PokeGrid.BadgeText` | src/components/PokeGrid.tsx:26-27 | the badge opens with the shown count and a space, ends in ")" exactly when the term is non-empty, and then ends with " (filtrado de N)"; without a term it is the count followed by " Pokémon encontrados" |
| `PokeGrid.RenderGrid` | src/components/PokeGrid.tsx:8-113 | the grid has one card per filtered entry, the empty-state panel exactly when it has no card, and a badge opening with the filtered count |
| `PokeGrid.GridBadgeSuffix` | src/components/PokeGrid.tsx:27 | the badge ends in ")" exactly when the term is non-empty, then ending with " (filtrado de N)" where N is the length of the prop list |
| `PokeGrid.WhitespaceTermShowsSuffix` | src/components/PokeGrid.tsx:27 | a term of one space filters nothing out but still shows the suffix |
| `PokeGrid.UnfilteredBadge` | src/components/PokeGrid.tsx:26-27 | with no term and the prop equal to the fetched list, the badge is the list length followed by " Pokémon encontrados" |
| `PokeGrid.TenEntriesExample` | src/components/PokeGrid.tsx:26-36 | ten fetched entries and no term give ten cards, the badge "10 Pokémon encontrados" and no empty-state panel |
| `PokeGrid.GridEmptyPanel` | src/components/PokeGrid.tsx:97 | the empty-state panel is rendered exactly when the filtered list is empty, that is exactly when no card is rendered |
| `PokeGrid.EmptyMessage` | src/components/PokeGrid.tsx:104-106 | with a term, the message starts with the generic text and ends with the term in double quotes; without one it is the generic text |
| `PokeGrid.GridIgnoresPropContents` | src/components/PokeGrid.tsx:9-10 | the hook ignores the prop, so two props of the same length render the same grid |
| `ErrorFallbacks.OrMessage` | src/pages/components/Error.tsx:21 | the message fallback keeps a present, non-empty message and otherwise gives the fallback |
| `ErrorFallbacks.OrStatus` | src/pages/components/Error.tsx:22 | the status fallback keeps a present, non-zero code and otherwise gives the fallback |
| `HomeError.HomeErrorArgument` | src/pages/components/Error.tsx:16 | an omitted `error` becomes the default object with "Unknown error occurred" and 500; a given one is used as it is |
| `HomeError.HomeErrorShown` | src/pages/components/Error.tsx:15-22 | a non-empty message and a non-zero code are shown unchanged; an omitted error, a missing or empty message, or a missing or zero code become "Unknown error occurred" and 500 |
| `HomeError.HomeDefaultArgumentRedundant` | src/pages/components/Error.tsx:16-22 | the default parameter gives the same result as the message and status fallbacks applied to the raw prop |
| `HomeError.HomeErrorShownIdempotent` | src/pages/components/Error.tsx:21-22 | a shown pair passed back in as the prop is shown unchanged |
| `PokemonError.PokemonErrorShown` | src/pages/pokemon/components/Error.tsx:21-22 | a non-empty message and a non-zero code are shown unchanged; a missing error, a missing or empty message, or a missing or zero code become "Ha ocurrido un error inesperado" and 500 |
| `PokemonError.PokemonErrorMissing` | src/pages/pokemon/components/Error.tsx:15-22 | an omitted error shows the default message and 500 |
| `PokemonError.PokemonErrorShownIdempotent` | src/pages/pokemon/components/Error.tsx:21-22 | a shown pair passed back in as the prop is shown unchanged |
| `PokemonError.PanelsAgree` | src/pages/pokemon/components/Error.tsx:21-22 | the two panels always show the same code, and show the same message exactly when the error carries a non-empty one |

## Left out

- Fetching: the GraphQL query for the first 10 entries, `getServerSideProps`, the Apollo client and its configuration. They are network I/O and foreign libraries, so the fetched list is an input of the model. The hook's `loading` and `error` values come from Apollo and are not modelled.
- The search bar's 300 ms debounce (`setTimeout`/`clearTimeout` inside a React effect). It is timer and React-lifecycle behaviour. `HandleSearch` models the call it eventually makes.
- `useMemo` caching. The model recomputes the value, which is the same value.
- The empty-upstream panel and the page-level `window.location.reload` and navigation buttons. They are presentation only.
- The home page repeats the grid's label and count. It is modelled once, in `PokeGrid`. The detail page is layout and I/O.
- JsString.ToLowerChar: lowers the ASCII letters A-Z only. Full Unicode case mapping (for example "É" to "é") is not modelled.
- JsString.ToLower: works on Dafny characters, not UTF-16 code units, so it follows `ToLowerChar`'s ASCII-only limit.
- JsString.Includes: compares Dafny characters, not UTF-16 code units. Strings outside the Basic Multilingual Plane can differ.
- HomeError.HomeErrorShown: a status code is an integer. `NaN` (also falsy) and fractional codes are not modelled. A `null` error prop is treated like an omitted one; `HomeDefaultArgumentRedundant` shows both give the same display.
- PokemonError.PokemonErrorShown: the same integer-only status code as the list page's panel.
- Styling, layout, images, page metadata and `console.log`: UI with nothing to verify.
