# Paris streets by district — a Dafny model of the district page

The district page of this Paris street directory shows the streets of one district
(arrondissement), and works as follows:

1. The postal code arrives in the `code` query parameter, and the street records are
   loaded from one JSON file.
2. The page keeps the records of the district. It takes the district key as
   `codePostal.substring(3)`, and the key `"00"` means every district at once.
3. It sets a title such as "5e Arrondissement - Panthéon".
4. It sorts the district's records in place by a short sort key, writes a stats line
   ("12 voies trouvées"), and lists one name per record.
5. A search box narrows the list as the user types.

All of this lives in `scripts/app.js`. The model follows the code, function by
function.

The model has eleven modules:

- `JsValue`: optional JSON string fields and JavaScript truthiness (`a || b`).
- `Whitespace`: `replace(/\s+/g, ' ').trim()` over the white-space set of
  ECMAScript. A reference definition (the words of the input joined by single
  spaces) is proved equal to it.
- `Text`: `toLowerCase`, `includes`, `substring(3)`, digit strings, and the decimal
  rendering of a count.
- `JsNumber`: `parseInt` with no radix, and the text a template literal makes of
  its result (`NaN`, `-0`).
- `StringOrder`: the order the sort compares keys by, proved to be a total order.
- `Sequences`: `Array.prototype.filter` and its properties.
- `Voies`: the street record (`arrtd` is `null`, missing or a code), the sort key
  `l_longmin || l_courtmin || l_voie || ''`, the street-type labels, and the name
  each list item shows.
- `District`: the district key, the district filter, and the title.
- `Sorting`: `rues.sort(...)`, modelled as an in-place insertion sort on an `array`.
  It is proved equal to a functional insertion sort, which is proved to be
  ordered, a permutation of its input, and stable.
- `Search`: the live search filter.
- `Page`: the page as a class. Its fields are what the script changes: the title,
  the stats line, the list contents, the loaded records, the district's array, and
  whether the search listener is installed. Its methods are:
  - `Open`: the page start-up.
  - `DisplayRues`: the district view.
  - `Render`: `renderRues`.
  - `OnSearch`: the input listener.

In these places the code behaves differently from what a reader might expect,
and the model follows the code:

- The list is sorted by the short key `l_longmin || l_courtmin || l_voie || ''`, not
  by the name shown. A street whose shown name is composed from its type is
  therefore placed by its bare name (`Page.ShownOrderFollowsKey`).
- The search matches the same short key, not the name shown.
- A search that finds nothing shows the "Aucune voie trouvée" notice. `renderRues`
  returns before it writes the stats line, so the line keeps the previous count.
- The district key is `substring(3)` of the code, not its last two characters.
- A key outside "00" to "20" is not an error. The title then shows what `parseInt`
  reads from the key and the name `undefined`.

## Model

| member | source | states |
|---|---|---|
| JsValue.Or | scripts/app.js:148-150 | a string field or its fallback, as JavaScript's `or` gives it: the field when it holds a non-empty string, the fallback otherwise; the result is empty exactly when the field is falsy and the fallback is empty, and differs from the fallback only when the field is used |
| Voies.TypeLabel | scripts/app.js:141-148 | the label is empty exactly when `c_desi` is falsy; a known code gives the table's label, an unknown one gives the code itself |
| Voies.DisplayName | scripts/app.js:132-157 | a truthy `l_longmin` is the shown name; otherwise a truthy `l_courtmin` is |
| Voies.DisplayNameComposed | scripts/app.js:139-153 | with a type and a street name, the shown name is the words of the type label, the linking word and the street name, joined by single spaces, with no white space at either end or twice in a row; its words are exactly those words |
| Voies.DisplayNameFallback | scripts/app.js:148-156 | with no type or no street name, the shown name is the street name, or "Nom inconnu" when there is none |
| Voies.DisplayNameIsKeyWhenNamed | scripts/app.js:133-138 | with a long or short name, the shown name equals the sort key and is not empty |
| Voies.DisplayNameTwoWords | scripts/app.js:152-153 | a one-word label and a one-word street name, with no linking word, show as label, one space, and name |
| Voies.RueLepic | scripts/app.js:141-153 | `{c_desi: "RUE", l_voie: "Lepic"}` shows as "Rue Lepic" |
| Whitespace.NormalizeIsJoinOfWords | scripts/app.js:153 | `replace(/\s+/g, ' ').trim()` equals the words of the input joined by single spaces |
| Whitespace.NormalizeCollapsed | scripts/app.js:153 | the result has no white space at either end, and every white-space character in it is a single plain space between two words |
| Whitespace.NormalizeKeepsWords | scripts/app.js:153 | the result has the same words as the input, in the same order |
| Whitespace.NormalizeIdempotent | scripts/app.js:153 | normalising twice gives the same result as normalising once |
| Whitespace.NormalizeThreeParts | scripts/app.js:153 | the three-part template normalises to the words of the three parts; an empty linking word leaves no double space |
| Whitespace.WordsAroundSpace | scripts/app.js:153 | the words of `x + " " + y` are the words of `x` followed by those of `y` |
| Text.SubstringFrom3 | scripts/app.js:70 | the key is what follows the first three code points, and is empty for a code of three code points or fewer |
| Text.ToLowerIdempotent | scripts/app.js:171-173 | lower-casing twice gives the same result as lower-casing once |
| Text.IncludesIffOccurs | scripts/app.js:174 | `includes` holds exactly when the needle occurs at some position |
| Text.DecimalString | scripts/app.js:121 | the rendered count is a non-empty string of digits with no leading zero |
| Text.ParseDecimalString | scripts/app.js:121 | the rendered count reads back as the count |
| Text.DecimalStringOfParse | scripts/app.js:101 | a digit string with no leading zero is the rendering of its own value |
| Text.ParseDecimalLeadingZero | scripts/app.js:101 | a leading zero does not change the value of a digit string |
| JsNumber.DecimalThenRest | scripts/app.js:101 | `parseInt` reads the leading decimal digits and ignores what follows them, unless a lone `0` is followed by `x` or `X` |
| JsNumber.DecimalDigits | scripts/app.js:101 | a key of decimal digits, leading zeros allowed, reads as its value |
| JsNumber.ReadDecimalText | scripts/app.js:101 | the decimal text of `n` reads as `n`, and is rendered again the same way |
| JsNumber.NegativeDecimal | scripts/app.js:101 | a minus sign gives the negative value; `-0` is rendered "0" |
| JsNumber.HexDigits | scripts/app.js:101 | the `0x` prefix reads the hexadecimal digits after it |
| JsNumber.NoDigitIsNaN | scripts/app.js:101 | a key without any decimal digit reads as NaN, rendered "NaN" |
| JsNumber.LeadingSpace | scripts/app.js:101 | any run of leading white space (space, tab, line terminators, no-break space and the other characters of the set `trim` uses) does not change what `parseInt` reads |
| District.FilterByDistrictContents | scripts/app.js:73-83 | the filter keeps, in order and with their counts, exactly the records whose `arrtd` is not `null` (key "00"), or whose `arrtd` equals the key as a string |
| District.DistrictCodeIsExact | scripts/app.js:80-82 | records coded "5", "005" or "015" are not kept for the keys "05" or "15" |
| District.DistrictKeyInTable | scripts/app.js:86-95 | the two-digit key of `n` reads as `n`, so each of the keys 00 to 20 is in the names object, and only 00 is the aggregate key |
| District.NameOf | scripts/app.js:101 | a key outside the names object shows as "undefined" |
| District.TitleOfAll | scripts/app.js:97-98 | key "00" gives "Paris - Tous Arrondissements Confondus" |
| District.NameKeyIsTwoDigits | scripts/app.js:101 | every key found in the names object is the two-digit key of a district number from 0 to 20, so the titles of those numbers and of the keys outside the object cover every key |
| District.TitleOfDistrict | scripts/app.js:99-102 | district `n` gets `n` without its leading zero, "er" for the first district and "e" for the others, and the district's name |
| District.TitleOutsideTable | scripts/app.js:99-102 | a key outside the names object gets the number `parseInt` reads from it, "e", and "undefined" |
| District.TitleWithoutDigits | scripts/app.js:99-102 | a key without digits, such as the empty key of a short code, gets "NaNe Arrondissement - undefined" |
| StringOrder.BelowReflexive | scripts/app.js:117 | every key compares as not after itself |
| StringOrder.BelowTotal | scripts/app.js:117 | any two keys compare one way or the other |
| StringOrder.BelowTransitive | scripts/app.js:117 | the comparison is transitive |
| StringOrder.BelowAntisymmetric | scripts/app.js:117 | two keys that compare both ways are equal |
| Sequences.FilterCounts | scripts/app.js:77-82 | `filter` keeps each element that passes the test as often as it occurs, and drops every other one |
| Sequences.FilterIsSubsequence | scripts/app.js:77-82 | `filter` keeps the input order |
| Sorting.SortByKeyPermutes | scripts/app.js:114-118 | the sort only reorders: the multiset of records is unchanged |
| Sorting.SortByKeySorted | scripts/app.js:114-118 | the sorted list is in ascending order of sort key |
| Sorting.SortByKeyStable | scripts/app.js:114-118 | records that share a sort key keep their relative order |
| Sorting.SortByKeyOfSorted | scripts/app.js:114-118 | a list already in order is left as it is |
| Sorting.FilterSorted | scripts/app.js:172-176 | filtering a sorted list leaves it sorted |
| Sorting.InsertInPlace | scripts/app.js:114-118 | shifting `a[i]` left into the sorted prefix gives the functional insertion, and leaves the rest of the array alone |
| Sorting.SortInPlace | scripts/app.js:114-118 | the array ends up equal to the functional sort of its old contents, so it is sorted, stable and a permutation |
| Search.SearchFilterContents | scripts/app.js:171-175 | the search keeps, in order and with their counts, exactly the records whose lower-cased key contains the lower-cased query at some position |
| Search.SearchEmptyQuery | scripts/app.js:171-175 | the empty query keeps every record |
| Search.SearchIgnoresCase | scripts/app.js:171 | searching for the lower-cased query gives the same records as the query itself |
| Search.SearchOfSorted | scripts/app.js:172-176 | searching the sorted district list gives a list the following sort leaves unchanged; with the empty query it is the district list |
| Page.StatsLineCount | scripts/app.js:121 | the stats line is the count, which reads back as the count, then "voie trouvée" for one record and "voies trouvées" for more |
| Page.DisplayNames | scripts/app.js:124-162 | one shown name per record, in list order, each the record's display name |
| Page.ShownOrderFollowsKey | scripts/app.js:114-118 | "Boulevard Voltaire" is listed before "Avenue Zola" (from `{c_desi: "AV", l_voie: "Zola"}`), although it sorts after it by shown name |
| Page.FifthDistrictExample | scripts/app.js:63-166 | of three records, the code "75005" keeps the two coded "05", lists them as "Bar Street", "Rue Foo", and counts them as "2 voies trouvées" |
| Page.FifthDistrictFilter | scripts/app.js:69-83 | the code "75005" keeps, in order, the records coded "05" and drops the one coded "06" |
| Page.FifthDistrictOrder | scripts/app.js:114-157 | the long name "Bar Street" sorts before the street "Foo", and the two show as "Bar Street" and "Rue Foo" |
| Page.ArrondissementPage.constructor | scripts/app.js:1-2 | a page before any script runs has no records and no listener, and its district list is trivially sorted |
| Page.ArrondissementPage.Render | scripts/app.js:105-163 | an empty list shows the notice and leaves the stats line as it was; otherwise the array is sorted in place, the stats line gives its length, and the list shows one name per record in sorted order |
| Page.ArrondissementPage.ShowDistrict | scripts/app.js:165-166 | the district's records are kept in a new array that the first display leaves sorted, which keeps the page invariant |
| Page.ArrondissementPage.DisplayRues | scripts/app.js:63-178 | the new state is the key's title, the district's records sorted by key, their shown names (or the notice and the old stats line), and a listener exactly when there is a search box |
| Page.ArrondissementPage.Open | scripts/app.js:29-60 | a missing or empty code shows "Code postal manquant" and changes nothing else; a failed load shows the load error and keeps the old records; a successful load stores the fetched records, sets the title, and shows the district sorted by key with its stats line (the old stats line when the district is empty) |
| Page.ArrondissementPage.OnSearch | scripts/app.js:169-177 | the list shows the matching records in district order, or the notice with the old stats line; the district array is unchanged and stays sorted; the empty query shows the whole district again |

## Left out

- The DOM is reduced to three values: the title text, the stats text, and the list contents (`ListContent`). Elements, class names and `innerHTML` markup are not modelled.
- `fetch` and `response.json()` are not modelled. They become the `Fetch` parameter of `Open`: either the parsed records or a failure.
- The URL is not parsed. The `code` query parameter is given to `Open` directly as an optional string.
- The `DOMContentLoaded` handlers, the home page's button navigation (`initHomePage`) and the back button are navigation only, and are not part of this model.
- The `input` event is not modelled as an event. Each event is one call of `OnSearch`, and whether a search box exists is the `hasSearchInput` parameter.
- StringOrder.Below: `localeCompare` is modelled as lexicographic order on code points. Locale collation (accents, case) is not part of this model.
- Text.SubstringFrom3: strings are sequences of code points, while `substring` counts UTF-16 code units. A code with a character outside the Basic Multilingual Plane among its first three characters gives a different key in the model than in the script.
- Text.LowerChar: `toLowerCase` is modelled for ASCII, the Latin-1 capitals, Œ and Ÿ. Other scripts, and the characters whose lower case is longer than one character, are not modelled.
- JsNumber.ParseInt: `parseInt` values are exact integers. The rounding to a double for values of 2^53 and more, and the exponent notation for 10^21 and more, are not modelled.
- Voies.TypeLabel: names inherited from `Object.prototype` (a `c_desi` such as "constructor") are treated as absent from the type table. In JavaScript they would produce a function's source text.
- District.NameOf: the same applies to the district names object. A key such as "toString" is treated as absent.
- Voies.Voie: every record is an object whose name fields are strings or absent. A `null` record or a number-valued field would make the script throw or convert the value, and this is not modelled.
- Sorting.SortInPlace: the engine's sort algorithm is not specified by the language. The model sorts by insertion, and the proved properties are the ones the language promises: a stable permutation in comparator order.
- The loading indicator is modelled, as the `Loading` contents set before the fetch. The asynchronous wait is not modelled: the fetch result is an input.
