# Crypto tracker dashboard: a Dafny model of its state, search and rendering

The dashboard keeps two module-level lists of market records, `allCryptos`
(everything the last successful fetch returned) and `filteredCryptos` (what
the search box currently selects), and redraws a grid of cards from the
filtered list. This project models, in Dafny:

- the search filter of `filterCryptos`: lower-case and trim the term, keep
  the whole list for an empty term, otherwise keep, in order, the records
  whose lower-cased name or symbol contains the term (module `Search`, with
  the string built-ins it relies on in module `Text`);
- the two state transitions over `allCryptos`/`filteredCryptos`, as the
  class `App.Dashboard` with methods `Fetch` (given what the endpoint
  answered) and `Filter` (given the search box's text), together with the
  card grid and the error banner they leave on screen;
- the formatting helpers as the branch they take (module `Format`):
  `getChangeClass`, the suffix band of `formatLargeNumber`, the two branches
  of `formatPrice` and of `formatPercentage`;
- `displayCryptos` as the sequence of card summaries it draws, or the "no
  results" placeholder (module `Render`).

Files: `text.dfy` (Text), `assets.dfy` (Assets: the record type and the
fetch outcome), `format.dfy` (Format), `render.dfy` (Render), `search.dfy`
(Search), `app.dfy` (App).

Two behaviours of the code worth knowing:

- A successful fetch does not re-apply the search box's term: script.js:32-33
  assign the fetched array to both `allCryptos` and `filteredCryptos`, so the
  view resets to the full list while the box may still hold a term. `Fetch`
  models exactly that, and the ghost field `appliedTerm` records that the
  filtered list is then derived with the empty term.
- Both lists are assigned before `displayCryptos` runs (script.js:32-35), so
  an exception while rendering (for instance from a null `market_cap`, which
  reaches `toLocaleString` at script.js:126) arrives at the `catch` with the
  lists already replaced. The model's records always carry numbers, so this
  path does not arise in it (see "Left out").

## Model

| member | source | states |
|---|---|---|
| Text.ToLower | script.js:169 | lower-casing keeps the length and folds each character on its own |
| Text.ToLowerIdempotent | script.js:169 | lower-casing an already lower-cased string changes nothing |
| Text.TrimSpec | script.js:169 | the trimmed term is a slice of the input with only whitespace around it, does not start or end with whitespace, and is empty exactly when the input is empty or all whitespace |
| Text.Trim | script.js:169 | the trimmed text is no longer than the input and neither starts nor ends with whitespace |
| Text.TrimIdempotent | script.js:169 | trimming a trimmed string changes nothing |
| Text.ContainsComplete | script.js:175-176 | `includes` finds an occurrence of the term at any position |
| Text.ContainsSound | script.js:175-176 | when `includes` answers true, the term occurs at some position |
| Text.ContainsIff | script.js:175-176 | `includes` holds exactly when the term occurs at some position |
| Text.Contains | script.js:175-176 | every string includes the empty term, and a term longer than the string is never included |
| Search.FilterBy | script.js:174-177 | `filter` keeps no more records than it is given, and every record it keeps matches the term |
| Search.FilterByMembership | script.js:174-177 | a record is kept exactly when it is in the input and its lower-cased name or symbol contains the term |
| Search.FilterByCount | script.js:174-177 | a matching record is kept as many times as it occurs in the input; a non-matching one never |
| Search.FilterBySubsequence | script.js:174-177 | the kept records are a subsequence of the input, in the input's order |
| Search.FilterByIdempotent | script.js:174-177 | filtering the result again by the same term gives the same result |
| Search.FilterByEmptyTerm | script.js:174-177 | filtering by the empty term keeps every record |
| Search.NormalizeTerm | script.js:169-171 | the lower-cased, trimmed term is no longer than the search text, and empty exactly when the search text is empty or whitespace only |
| Search.Matches | script.js:175-176 | the callback accepts a record exactly when the term occurs at some position of its lower-cased name or of its lower-cased symbol; the empty term accepts every record |
| Search.FilterCryptos | script.js:168-178 | the list assigned to `filteredCryptos` is no longer than the full list, and each of its records matches the normalised term |
| Search.FilterCryptosIsFilterBy | script.js:169-178 | the empty-term shortcut gives the same list as filtering by the normalised term |
| Search.FilterCryptosBlankTerm | script.js:169-172 | an empty or whitespace-only search text gives back the full list, in the same order |
| Search.FilterCryptosMembership | script.js:168-178 | a record is in the filtered list exactly when it is in the full list and its lower-cased name or symbol contains the lower-cased, trimmed term |
| Search.FilterCryptosSubsequence | script.js:168-178 | the filtered list is an order-preserving subsequence of the full list, and keeps each matching record as often as the full list holds it |
| Search.FilterCryptosIdempotent | script.js:168-178 | filtering the filtered list again with the same search text changes nothing |
| Format.GetChangeClass | script.js:138-142 | the class is positive exactly for a value above 0, negative exactly below 0, neutral exactly at 0 |
| Format.LargeNumberBand | script.js:118-128 | suffix T exactly from 10^12, B exactly in [10^9, 10^12), M exactly in [10^6, 10^9), none below 10^6 |
| Format.LargeNumberBandMonotone | script.js:118-128 | a larger number never gets a smaller suffix |
| Format.FormatLargeNumber | script.js:118-128 | the suffix is the band's; the quotient handed to `toFixed(2)` (or to `toLocaleString` without a suffix) times the suffix's scale is the input; with a suffix that quotient is at least 1, and below 1000 for B and M |
| Format.FormatPrice | script.js:107-116 | prices of at least 1 take the grouped two-decimal branch, all others the six-decimal branch; the value is passed through unchanged |
| Format.FormatPercentage | script.js:130-136 | N/A exactly for an absent value; otherwise the value itself, with a `+` exactly when it is zero or positive |
| Format.SignMatchesClass | script.js:130-142 | a percentage shows `+` exactly when it is not classed negative |
| Assets.OrZero | script.js:53-55 | defaulting a change to 0 with a logical or gives 0 exactly when the value is absent or 0, and otherwise the value itself |
| Render.RankLabelOf | script.js:67 | the rank shows N/A exactly when it is absent or 0, and otherwise shows the rank itself |
| Render.ChangeCellOf | script.js:53-55 | a change cell never shows N/A; an absent change shows `+0.00%` and is drawn neutral; a present one shows its own value, with a `+` exactly when it is zero or positive, classed by its sign; the cell is neutral exactly when the change is absent or 0 |
| Render.CardOf | script.js:52-103 | a card carries its record's name, symbol and icon; its rank, price, market cap and volume are the record's own fields through `RankLabelOf`, `FormatPrice` and `FormatLargeNumber`; its 1h, 24h and 7d cells are `ChangeCellOf` of the record's 1h, 24h and 7d changes; the rank is N/A exactly when it is absent or 0, no change cell is N/A, and market cap and volume get the suffix of their band |
| Render.Cards | script.js:52-104 | one card per record |
| Render.DisplayCryptos | script.js:46-104 | the placeholder exactly for an empty list; otherwise a grid of as many cards as records |
| Render.CardsAt | script.js:52-104 | card `i` is the card of record `i`, with its name and symbol |
| Render.CardsAppend | script.js:52-104 | rendering a concatenation is concatenating the renderings: each record contributes its own card only |
| Render.DisplayOneCardPerRecord | script.js:46-104 | a non-empty list is drawn as exactly one card per record, in input order |
| Render.DisplayChangeCells | script.js:52-93 | in the drawn grid, card `i` shows an absent 1h, 24h or 7d change of record `i` as `+0.00%` drawn neutral, and a present one as that record's value with a `+` exactly when it is not negative and the class of its sign |
| Render.DisplayNeverShowsChangeNotAvailable | script.js:52-104 | no change cell of a drawn card reaches the N/A branch of `formatPercentage` |
| App.Dashboard.constructor | script.js:1-2 | both lists start empty and nothing is drawn |
| App.Dashboard.FilteredIsSubsequence | script.js:168-178 | whenever the state invariant holds, `filteredCryptos` is an order-preserving subsequence of `allCryptos` |
| App.Dashboard.Fetch | script.js:18-44 | the filtered list stays a subsequence of the full list; on success both lists become the fetched data (any active filter is dropped), the grid shows all of it and the error banner is hidden; on failure both lists and the grid keep their values and the error banner is shown |
| App.Dashboard.Filter | script.js:168-181 | the filtered list becomes the full list filtered by the search text, the full list is unchanged, the filtered list is a subsequence of it, and the grid shows the filtered list |

## Left out

- The HTTP request, `response.ok` and `response.json()` (script.js:23-31): network I/O. `Fetch` takes the outcome as a parameter, `Success(data)` or `Failure`.
- A response body that parses but is not an array of complete records: the model's records are typed, with numbers for price, market cap and volume and strings for name and symbol that are always present. So the exception that a null number or a non-array body would raise inside `displayCryptos`, after both lists were already replaced, is not modelled; nor is the exception that a null `name` or `symbol` raises in the `filter` callback (script.js:175-176) as soon as a non-empty term is typed, which leaves `filteredCryptos` at its old value (the template itself would just print `null`).
- The loading indicator and the disabled state of the refresh button (`showLoading`, script.js:144-153): UI plumbing; within one call they are switched on and back off.
- `console.error` on failure (script.js:40): logging only.
- The last-updated label (script.js:163-166): wall-clock and locale dependent.
- The timer and the event listeners (script.js:184-194), and with them two fetches in flight at once (the later response wins): concurrency, not a sequential property.
- The digit strings of `toFixed` and `toLocaleString` in `formatPrice`, `formatLargeNumber` and `formatPercentage` (script.js:107-136): floating-point and locale formatting. Only the branch and the quantity handed to the formatter are modelled.
- Format.FormatLargeNumber: bounds the quotient before `toFixed(2)` rounds it, not the printed text; a quotient of 999.995 or more in the B or M band (for instance 999999999999, which gets B) prints as `1000.00B` or `1000.00M`.
- JavaScript numbers are modelled as `real`: rounding, NaN, infinities and negative zero are not.
- Text.ToLower: folds only ASCII A-Z, not the full Unicode case mapping of `toLowerCase`. `Text.IsSpace`, used by `trim`, is the complete whitespace set.
- The HTML of each card, its image and alt attributes, and the absence of escaping (script.js:57-103); the fixed list of asset identifiers and the request URL (script.js:12-16, 24).
