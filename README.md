# stockdex core, modelled in Dafny

stockdex is a Python library that fetches financial data about a stock or ETF
from several websites (Yahoo Finance's web pages and its JSON API, justETF,
Digrin) and hands it back as pandas frames. A `TickerFactory` checks the
requested data source and builds a ticker object on the interface class that
serves it. Most justETF, Macrotrends and Yahoo web-page endpoints (all except
`yahoo_web_description` and `justetf_price`) first check that the ticker's
security type is one they serve. The Yahoo API, Digrin, Finviz and Nasdaq
endpoints skip that check.

This project models the logic between the HTTP calls and the plots:

- `DigrinInterface` (`digrin_interface.dfy`) covers the Digrin number and date
  normalisers. `"1.5 B"` becomes 1.5e9, the null sentinels become 0, and
  `"Dec. 31, 2023"` becomes `"2023-12-31"`.
- `YahooApiInterface` (`yahoo_api_interface.dfy`) covers three steps:
  - building the fundamentals-timeseries URL;
  - the loop that turns the decoded `timeseries.result` list into a frame;
  - the reshaping of that frame for plotting: check the fields, select, drop
    rows with NaN, and transpose on request.
- `DataFrames` (`data_frame.dfy`) holds the pandas operations that reshaping
  uses: column selection, `dropna` and `.T`.
- `TickerBase` (`ticker_base.dfy`) is the element locator the scrapers use: the
  first element with a tag whose text contains a fragment.
- `Lib` (`lib.dfy`) is the security-type guard.
- `Ticker` (`ticker.dfy`) models the ticker factory as a class.
  `TickerFactory.Create` models the Python constructor: it checks the source,
  selects the class and builds the ticker. The class also has the `data_source`
  and `ticker` accessors.
- `Text` (`text.dfy`) holds the Python string built-ins that the core calls:
  `split` and `join` on one character, `replace(c, "")`, `lower`, `upper`, the
  `in` substring test, and `str(int)`.
- `Wrappers` (`wrappers.dfy`) holds `Option`, `Result` and `Outcome`.

Raised exceptions are modelled as `Failure`/`Fail` values carrying an error
datatype. Python's `float()` is a parameter, `toFloat`, which returns `None`
where `float()` raises. The settings module is also a parameter: the `*_COLUMNS`
lists, the base URL and the valid data sources. A parsed HTML page is the
sequence of its elements in document order.

Where the behaviour described for the library and the code differ, the model
follows the code:

- The date normaliser does not zero-pad the day: `"Jan. 1, 2024"` gives
  `"2024-01-1"` (`DigrinInterface.OneDigitDayIsNotPadded`).
- The date normaliser does not know `"Mar"` or `"Sep"` (`"March"` and `"Sept"`
  are the keys), so `"Mar. 15, 2023"` is rejected.
- The number normaliser does no currency, percent, comma or whitespace
  handling. A sentinel only matches exactly (`" N/A"` goes to `float()`).
- `ticker.py` imports the Digrin class under the name `Digrin_Interface`, while
  `digrin_interface.py` defines it as `DigrinInterface`. The model follows the
  dispatch in `ticker.py` and calls the class `DigrinInterface`.
- `exceptions.py` defines only `NoISINError` and `NoDataError`. The exceptions
  `WrongSecurityType`, `WrongDataSource` and `FieldNotExists` that the core
  raises are modelled as error constructors carrying the values passed to
  them.
- The `data_source` setter does not re-select the class or rebuild the ticker.
  After a successful assignment, the stored source can name a different class
  than the one the ticker was built on (`Ticker.TickerFactory.SetDataSource`).

## Model

| member | source | states |
|---|---|---|
| DigrinInterface.HumanNumberToRaw | stockdex/digrin_interface.py:515-542 | A null sentinel gives 0. When the lower-cased entry holds one of t/b/m/k, the result is `float` of the text before the first space times the largest magnitude among the letters present (errors carry that text). Otherwise `float` of the whole entry; failure carries the entry. |
| DigrinInterface.SuffixMultiplier | stockdex/digrin_interface.py:533-541 | The `elif` chain's multiplier is 1 exactly when the lowered entry holds none of t/b/m/k, and otherwise the magnitude of a letter it holds. |
| DigrinInterface.SuffixTestsAreMembership | stockdex/digrin_interface.py:533-539 | Each substring test `"t" in s` (and `b`, `m`, `k`) holds exactly when that character is in `s`. |
| DigrinInterface.SuffixLetterEitherCase | stockdex/digrin_interface.py:533-539 | A suffix letter is found in `entry.lower()` exactly when the entry holds it in either case, or the Kelvin sign for `k`. |
| DigrinInterface.SuffixMultiplierIsLargestScale | stockdex/digrin_interface.py:533-540 | The t-then-b-then-m-then-k priority of the `elif` chain always picks the largest magnitude among the letters present. |
| DigrinInterface.LargestScale | stockdex/digrin_interface.py:533-540 | The chosen magnitude bounds every letter's magnitude and is either 1 or the magnitude of a letter that occurs. |
| DigrinInterface.ParseScaled | stockdex/digrin_interface.py:534-542 | Succeeds exactly when `float` accepts the text; the value is that float times the factor; the failure carries the text. |
| DigrinInterface.FirstToken | stockdex/digrin_interface.py:534 | The first piece of `split(" ")` holds no space. |
| DigrinInterface.OnlyFirstTokenIsParsed | stockdex/digrin_interface.py:533-540 | For `token + " " + rest` with a suffix letter anywhere, only `token` is parsed; the rest matters only through its letters. |
| DigrinInterface.NullSentinelsAreZero | stockdex/digrin_interface.py:520-532 | Each of the nine sentinels gives 0, whatever `float` does. |
| DigrinInterface.SentinelsHaveNoSpace | stockdex/digrin_interface.py:520-530 | No sentinel contains a space. |
| DigrinInterface.SpacedBillionExample | stockdex/digrin_interface.py:535-536 | `"1.5 B"` gives 1.5e9 when `float("1.5")` is 1.5. |
| DigrinInterface.WordsFailOnFirstToken | stockdex/digrin_interface.py:533-534 | `"not a number at all"` takes the trillion branch and fails on `"not"`. |
| DigrinInterface.UnknownSuffixFails | stockdex/digrin_interface.py:541-542 | `"12.34 XYZ"` has no suffix letter, so the whole text goes to `float` and the failure carries it. |
| DigrinInterface.SentinelMatchIsExact | stockdex/digrin_interface.py:531-542 | `" N/A"` is not a sentinel and is passed unchanged to `float`. |
| DigrinInterface.MonthNumbersInCalendarOrder | stockdex/digrin_interface.py:548-561 | The i-th month name maps to the two-digit number i+1. |
| DigrinInterface.MonthKeysAreMonthNames | stockdex/digrin_interface.py:548-561 | The table's keys are exactly the twelve month names. |
| DigrinInterface.MonthNumbersReadBack | stockdex/digrin_interface.py:548-561 | Every month number is all digits and reads back as its calendar position. |
| DigrinInterface.MonthNumbersInjective | stockdex/digrin_interface.py:548-561 | No two month names share a number. |
| DigrinInterface.HumanDateToRaw | stockdex/digrin_interface.py:544-567 | Unpacking fails exactly when the entry does not hold exactly two spaces, and reports the token count. Otherwise the call succeeds exactly when the dot-free month is a key. An unknown month is reported dot-free. |
| DigrinInterface.HumanDateFromTokens | stockdex/digrin_interface.py:563-567 | For any three space-free tokens, the answer is `year-MM-day` with commas removed from the day when the dot-free month is known, and an unknown-month error otherwise. |
| DigrinInterface.AcceptedDateHasThreeTokens | stockdex/digrin_interface.py:563 | Every accepted entry is exactly three space-free tokens joined by single spaces. |
| DigrinInterface.RawDateSplitsIntoParts | stockdex/digrin_interface.py:567 | When year and day hold no `-`, splitting the answer on `-` gives the year, the month number and the comma-free day back. |
| DigrinInterface.DropTrailing | stockdex/digrin_interface.py:564-566 | Removing a trailing mark from a token with no other copy of it gives the token. |
| DigrinInterface.DottedDate | stockdex/digrin_interface.py:563-567 | Input `Mon. D, YYYY` gives `YYYY-MM-D` for a known month and an unknown-month error naming `Mon` otherwise. |
| DigrinInterface.DecemberExample | stockdex/digrin_interface.py:544-567 | `"Dec. 31, 2023"` gives `"2023-12-31"`. |
| DigrinInterface.OneDigitDayIsNotPadded | stockdex/digrin_interface.py:566-567 | `"Jan. 1, 2024"` gives `"2024-01-1"`: the day is not padded. |
| DigrinInterface.ShortDatesRejected | stockdex/digrin_interface.py:563 | `"Dec 31"` (two tokens) and `""` (one token) fail to unpack. |
| DigrinInterface.NumericMonthRejected | stockdex/digrin_interface.py:564-565 | `"13. 31, 2023"` fails with the unknown month `"13"`. |
| DigrinInterface.AbbreviatedMarchRejected | stockdex/digrin_interface.py:548-565 | `"Mar. 15, 2023"` fails: the table spells March out in full. |
| Lib.Normalise | stockdex/lib.py:19-20 | A single name becomes the one-element list; a list is kept. |
| Lib.CheckSecurityType | stockdex/lib.py:15-23 | Passes exactly when the type is an element of the normalised list. Otherwise it fails with that list and the given type. |
| Lib.SingleTypeIsEquality | stockdex/lib.py:19-22 | With a single name, the check passes exactly on that name. |
| Lib.SingleIsOneElementList | stockdex/lib.py:19-20 | A name and the one-element list holding it give the same result. |
| Lib.MoreTypesStillPass | stockdex/lib.py:22 | Adding allowed types never turns a pass into a failure. |
| Lib.WrongTypesRejected | stockdex/lib.py:22-23 | `"etf"` against `["stock"]` and `"wrong_security_type"` against `["etf"]` fail with that list and type. |
| TickerBase.FirstMatch | stockdex/ticker_base.py:46-48 | Gives the position of the first element with the tag whose text contains the fragment. It gives none exactly when no element matches. |
| TickerBase.FindParentByText | stockdex/ticker_base.py:39-48 | The loop returns None exactly when no element matches. Otherwise it returns an element that matches, with no match before it. |
| TickerBase.EmptyFragmentFindsFirstTagged | stockdex/ticker_base.py:46-47 | With an empty fragment, the first element carrying the tag is found, and none is found only when no element has the tag. |
| TickerBase.FirstMatchIgnoresLaterElements | stockdex/ticker_base.py:46-48 | Elements appended after a match never change the answer. |
| DataFrames.IndexOf | stockdex/yahoo_api_interface.py:681 | Gives the first position holding the label. |
| DataFrames.PositionsFrom | stockdex/yahoo_api_interface.py:681 | The positions of the columns carrying a label: in range, increasing, and every carrier included. |
| DataFrames.Selection | stockdex/yahoo_api_interface.py:681 | Every selected position carries a requested field, and every column carrying a requested field is selected. |
| DataFrames.Select | stockdex/yahoo_api_interface.py:681 | `df[fields]` keeps every row and row label, and each of its columns carries a requested field. |
| DataFrames.SelectKeepsEveryCarrier | stockdex/yahoo_api_interface.py:681 | Every column carrying a requested label, repeated labels included, is in `df[fields]` with all its cells. |
| DataFrames.PositionsOfDistinct | stockdex/yahoo_api_interface.py:681 | With distinct column labels, a label is carried by exactly one column, the first holding it. |
| DataFrames.SelectionOfDistinct | stockdex/yahoo_api_interface.py:681 | With distinct column labels, the selected positions are those of the fields, one each, in order. |
| DataFrames.SelectDistinct | stockdex/yahoo_api_interface.py:681 | With distinct column labels, `df[fields]` has exactly the fields as columns, in order, each cell copied from the column carrying its field. |
| DataFrames.CompleteRowsFrom | stockdex/yahoo_api_interface.py:684 | The kept positions are increasing and in range, and each is a complete row. |
| DataFrames.CompleteRowIsKept | stockdex/yahoo_api_interface.py:684 | Every complete row is among the kept positions. |
| DataFrames.DropNa | stockdex/yahoo_api_interface.py:684 | `dropna` keeps the columns and the frame's shape. |
| DataFrames.Transposed | stockdex/yahoo_api_interface.py:686-687 | `.T` swaps the labels of rows and columns and puts cell (c, r) at (r, c). |
| DataFrames.DropNaRowsAreComplete | stockdex/yahoo_api_interface.py:684 | No row left by `dropna` has a missing cell. |
| DataFrames.DropNaKeepsOrder | stockdex/yahoo_api_interface.py:684 | Each remaining row keeps its label and its cells, and remaining rows keep their relative order. |
| DataFrames.DropNaKeepsCompleteRows | stockdex/yahoo_api_interface.py:684 | Every complete row of the input remains, under its label. |
| DataFrames.AllCompleteKeepsEveryRow | stockdex/yahoo_api_interface.py:684 | With no missing cell, every position is kept, in order. |
| DataFrames.DropNaOfCompleteFrame | stockdex/yahoo_api_interface.py:684 | A frame with no missing cell is unchanged. |
| DataFrames.DropNaIdempotent | stockdex/yahoo_api_interface.py:684 | Dropping twice is dropping once. |
| DataFrames.TransposeInvolution | stockdex/yahoo_api_interface.py:686-687 | Transposing twice gives the frame back. |
| DataFrames.SelectAllColumns | stockdex/yahoo_api_interface.py:681 | Selecting a frame's own distinct columns in order changes nothing. |
| YahooApiInterface.Prefixed | stockdex/yahoo_api_interface.py:334 | Each name gets the frequency in front, same order and count. |
| YahooApiInterface.BuildUrl | stockdex/yahoo_api_interface.py:299-339 | Fails exactly when the `<ENTITY>_COLUMNS` setting is missing and names that setting. |
| YahooApiInterface.TypeParameter | stockdex/yahoo_api_interface.py:332-334 | With a comma-free frequency, the `type` value cut at commas gives each comma-separated piece of the joined setting with the frequency in front, in order. |
| YahooApiInterface.TypeListMatchesSetting | stockdex/yahoo_api_interface.py:332-334 | When no configured column and not the frequency contains a comma, the `type` list splits back into exactly the prefixed configured columns. |
| YahooApiInterface.EmptySettingGivesBareFrequency | stockdex/yahoo_api_interface.py:332-334 | An empty column setting still sends the frequency alone as the type list. |
| YahooApiInterface.EntityNameIgnoresCase | stockdex/yahoo_api_interface.py:332 | The entity name is looked up case-insensitively. |
| YahooApiInterface.IntTextAvoids | stockdex/yahoo_api_interface.py:338 | The decimal text of a timestamp holds nothing but digits and a minus sign. |
| YahooApiInterface.KeyValueReadsBack | stockdex/yahoo_api_interface.py:336-338 | A `key=value` piece reads back as the key and the value. |
| YahooApiInterface.FourPiecesSplit | stockdex/yahoo_api_interface.py:336-338 | Four `&`-free pieces joined by `&` split back into the four pieces. |
| YahooApiInterface.QueryReadsBack | stockdex/yahoo_api_interface.py:336-338 | A `?`-free head, then `?`, then four plain `key=value` pieces joined by `&`, reads back as those four pairs. |
| YahooApiInterface.UrlLayout | stockdex/yahoo_api_interface.py:336-338 | The built URL is the head, `?`, and the four query pieces. |
| YahooApiInterface.HeadBeforeQuery | stockdex/yahoo_api_interface.py:336 | A `?`-free head and a `?`-free query, cut at `?`, give the head and then the query. |
| YahooApiInterface.ColumnsSettingName | stockdex/yahoo_api_interface.py:332 | The setting name is the entity name with no lower-case ASCII letter left, each character its capital, followed by `_COLUMNS`. |
| YahooApiInterface.UrlQueryReadsBack | stockdex/yahoo_api_interface.py:329-339 | The part before `?` is the base URL, `/`, the ticker and `/`; the URL's query reads back as `symbol` = ticker, `type` = the type list, and `period1`/`period2` = the timestamps, whose text parses back to the integers given. |
| YahooApiInterface.Dates | stockdex/yahoo_api_interface.py:366 | The dates of a series, one per entry, in order. |
| YahooApiInterface.Values | stockdex/yahoo_api_interface.py:367 | Succeeds exactly when every entry reports the format, giving those values in order. Otherwise it fails at the first entry without it. |
| YahooApiInterface.Step | stockdex/yahoo_api_interface.py:359-369 | One loop turn keeps the dictionary and its key order consistent. |
| YahooApiInterface.Collect | stockdex/yahoo_api_interface.py:357-369 | The loop state after any prefix of the response keeps the keys and their insertion order consistent, each key once, every series as long as its labels. |
| YahooApiInterface.Lookup | stockdex/yahoo_api_interface.py:371 | Aligning a series on a date gives NaN exactly when the date is absent. Otherwise it gives a value stored under that date. |
| YahooApiInterface.Frame | stockdex/yahoo_api_interface.py:371 | The frame has one column per key in insertion order and the last bound `dated_index` as its rows. A series whose dates are that index keeps its values row by row; any other is looked up by date. |
| YahooApiInterface.Extracted | stockdex/yahoo_api_interface.py:341-371 | A returned frame is well shaped and its columns are distinct. |
| YahooApiInterface.CollectFailurePersists | stockdex/yahoo_api_interface.py:358-367 | An error raised in some turn is the error of the whole call. |
| YahooApiInterface.ExtractDataFrame | stockdex/yahoo_api_interface.py:341-371 | The loop returns exactly the frame or error of `Extracted`. Its invariant is that the variables equal the fold over the items seen so far. |
| YahooApiInterface.SkippedItemChangesNothing | stockdex/yahoo_api_interface.py:361-363 | An item without its field changes nothing, `dated_index` included. |
| YahooApiInterface.LastContributorWins | stockdex/yahoo_api_interface.py:365-369 | A contributing item overwrites its column with its own series. It appends the column only if it is new, leaves other columns alone, and its dates become the index. |
| YahooApiInterface.NoContributorLeavesIndexUnbound | stockdex/yahoo_api_interface.py:357-371 | When no item carries its field, `dated_index` is never bound and the call fails instead of returning a frame. |
| YahooApiInterface.LookupDistinctLabels | stockdex/yahoo_api_interface.py:369-371 | With distinct dates, a series reads back its own values under its own dates. |
| YahooApiInterface.Aligned | stockdex/yahoo_api_interface.py:369-371 | A cell is NaN exactly when the row's date is not among the series' dates, and otherwise a value the series holds under that date; a series indexed by the frame's own index keeps its values row by row. |
| YahooApiInterface.AlignedDistinctLabels | stockdex/yahoo_api_interface.py:369-371 | A series with distinct dates, aligned on any index, gives its own value under each date it carries and NaN under any other. |
| YahooApiInterface.LastContributorKeepsItsRows | stockdex/yahoo_api_interface.py:365-371 | The last contributing item's column holds its values row by row, whatever its dates, since they are the index. |
| YahooApiInterface.SingleItemFrame | stockdex/yahoo_api_interface.py:357-371 | One contributing item gives a one-column frame, indexed by its dates, holding its values row by row, repeated dates included. |
| YahooApiInterface.FirstMissing | stockdex/yahoo_api_interface.py:671-673 | Gives the first requested field that is not a column, or none exactly when all are columns. |
| YahooApiInterface.Arranged | stockdex/yahoo_api_interface.py:686-687 | For `"timeframe"` the frame is transposed; for any other grouping it is returned unchanged; either way it stays well shaped. |
| YahooApiInterface.PlotFrame | stockdex/yahoo_api_interface.py:643-689 | Fails exactly when some prefixed field is not a column, with `FieldNotExists(columns, first such field)`. Otherwise it gives a well-shaped frame. |
| YahooApiInterface.TransformForPlotting | stockdex/yahoo_api_interface.py:643-689 | The two checking loops and the reshaping give exactly `PlotFrame`; the second loop's raise is unreachable. |
| YahooApiInterface.PlotFrameShape | stockdex/yahoo_api_interface.py:669-687 | Grouped by field, no row has a missing cell. The result's columns (or, for `"timeframe"`, its rows) carry requested fields only, and they are exactly the prefixed fields in order when the frame's column labels are distinct. |
| YahooApiInterface.ExtractedFramePlotsRequestedFields | stockdex/yahoo_api_interface.py:357-371 | A frame returned by `extract_dataframe` and then plotted by field has exactly the prefixed fields as its columns. |
| YahooApiInterface.TimeframeIsTransposeOfField | stockdex/yahoo_api_interface.py:686-687 | Grouping by timeframe gives exactly the transpose of grouping by field. |
| YahooApiInterface.UnknownFieldRejected | stockdex/yahoo_api_interface.py:671-673 | A field the frame lacks is reported with its frequency prefix and the frame's columns. |
| Ticker.SelectBaseClass | stockdex/ticker.py:24-37 | The selected class's source name is the given source. A failure means no class has that name, and it carries the source. |
| Ticker.SourceName | stockdex/ticker.py:25-35 | Each class has one of the four supported source names, and no two classes share one. |
| Ticker.SelectInvertsSourceName | stockdex/ticker.py:25-35 | Every class is selected by its own source name. |
| Ticker.SelectBaseClassInjective | stockdex/ticker.py:25-35 | Two sources selecting the same class are the same source. |
| Ticker.CreationOutcome | stockdex/ticker.py:14-22 | Building succeeds exactly when the source is valid, served by a class, and not JustETF without an ISIN. Errors come in constructor order: wrong source, then unsupported source, then missing ISIN. |
| Ticker.ValidButUnservedSourceIsUnsupported | stockdex/ticker.py:20-37 | A source the settings accept but no class serves fails at class selection. |
| Ticker.CreateTicker | stockdex/ticker.py:39-47 | Builds a fresh ticker on the class with the given identifiers. It fails with the missing-ISIN error exactly for JustETF with an empty ISIN. |
| Ticker.TickerFactory.Init | stockdex/ticker.py:17-22 | Stores the identifiers, the source, the class and the ticker object as given; a source from the valid list leaves the factory valid. |
| Ticker.TickerFactory.Create | stockdex/ticker.py:14-22 | Takes the Python defaults (a stock on `"yahoo_api"`, empty ticker and ISIN). Fails exactly as `CreationOutcome` says. On success, a fresh factory holds the identifiers, the source, the selected class and a fresh ticker built on it, and its source is valid. |
| Ticker.TickerFactory.SetDataSource | stockdex/ticker.py:64-68 | A valid source is stored. Any other is rejected with `WrongDataSource` and the stored source is kept. Only the source field may change, and validity is preserved. |
| Ticker.TickerFactory.GetTicker | stockdex/ticker.py:49-54 | Returns the ticker object currently held. |
| Ticker.TickerFactory.SetTicker | stockdex/ticker.py:56-58 | Replaces the ticker object and nothing else. |
| Text.Split | stockdex/digrin_interface.py:563 | `split(sep)` gives one more piece than there are separators, and no piece holds the separator. |
| Text.SplitJoin | stockdex/yahoo_api_interface.py:332-334 | Joining separator-free pieces and splitting again gives the pieces back. |
| Text.JoinSplit | stockdex/yahoo_api_interface.py:334 | Splitting and re-joining with the same separator gives the string back. |
| Text.RemoveAll | stockdex/digrin_interface.py:564-566 | `replace(c, "")` leaves no `c`, removes exactly the `c`s, and keeps every other character. |
| Text.Lower | stockdex/digrin_interface.py:533-539 | `lower()` keeps the length and lower-cases each character. |
| Text.Upper | stockdex/yahoo_api_interface.py:332 | `upper()` keeps the length and maps each ASCII lower-case letter to its capital; other characters are unchanged. |
| Text.LowerContains | stockdex/digrin_interface.py:533-539 | A letter occurs in the lowered entry exactly when it or its capital (or, for `k`, the Kelvin sign) occurs in the entry. |
| Text.ContainsChar | stockdex/ticker_base.py:47 | A one-character fragment occurs exactly when the character is in the string. |
| Text.Contains | stockdex/ticker_base.py:47 | `text in s` holds exactly when `text` is the slice of `s` at some position. |
| Text.Join | stockdex/yahoo_api_interface.py:332 | Joining n > 0 separator-free pieces puts exactly n - 1 separators in the result. |
| Text.NatToString | stockdex/yahoo_api_interface.py:338 | The decimal text is non-empty digits with no leading zero. |
| Text.IntToString | stockdex/yahoo_api_interface.py:338 | The text of every integer parses back to it: `int(str(i)) == i`. |

## Left out

- HTTP requests, HTML fetching and Selenium, Dash/Plotly plotting, and the
  scraping bodies of the other interfaces are not modelled: they are I/O or
  rendering.
- The conversion of `period1`/`period2` from `datetime` to a Unix timestamp
  (pandas `Timestamp`) is not modelled: the timestamps are integer inputs.
- The settings module (`*_COLUMNS`, `FUNDAMENTALS_BASE_URL`, the valid data
  sources) is not part of this model; its values are parameters.
- DigrinInterface.HumanNumberToRaw: `float()` parsing and float rounding of the
  multiplication are not modelled. `toFloat` is an abstract parameter and the
  product is exact real arithmetic. A sentinel returns the integer 0 in Python
  and `0.0` here.
- Text.Upper: only ASCII letters are upper-cased, while `str.upper()` maps all of
  Unicode. An entity name with other letters is looked up under a different
  setting name than Python would use.
- DigrinInterface.HumanNumberToRaw: `float()` also returns non-finite values,
  which `Option<real>` cannot express. `"NaN"` is not a sentinel and becomes
  NaN, and `"Infinity"` takes the trillion branch and becomes infinity.
- Text.Lower: Unicode lower-casing is modelled only as far as the suffix test
  can see it: ASCII capitals, plus the Kelvin sign, which lowers to `k`. Other
  characters are kept as they are.
- YahooApiInterface.Lookup: when a series has duplicate dates and they are not
  exactly the frame's index, pandas raises on the reindex. The model takes the
  first entry instead. A series whose dates are the index, repeats included,
  keeps its values row by row, as in pandas (`YahooApiInterface.Aligned`).
- YahooApiInterface.ExtractDataFrame: several response shapes are not modelled.
  - An item missing `meta` or `asOfDate` cannot be expressed: every item has a
    type list and every point a date.
  - A `reportedValue` that is `null` cannot be expressed: it is a map.
  - A type name equal to `"meta"` is not distinguished from a data field.
- DataFrames: pandas `Index` objects and dtypes are reduced to label sequences
  and `Option` cells (NaN is `None`). `dropna` uses its default
  `how="any"` on rows.
- DataFrames.Select: a requested field that is not a column is skipped, where
  pandas `df[fields]` raises `KeyError`. Its one caller
  (stockdex/yahoo_api_interface.py:671-673) raises `FieldNotExists` for such a
  field first, so `df[fields]` never sees one.
- Ticker.TickerInstance: the ticker object keeps only the identifiers and the
  class it is built on. The Yahoo API class's own `data_source` attribute (always
  its default) and the endpoint methods are not modelled.
- TickerBase: BeautifulSoup parsing and `get_text()` are not modelled. A
  document is the sequence of its elements with their tag and full text.

