# Music production tool finder: loader and searches

This project models the core of `Chatbot.py`, a command-line finder for
music production tools, and proves properties of that model.

The program reads a text file with one tool per line:
`Name,Type,Developer,Price,Tag;Tag;...`. It builds a catalog of tool
records from those lines. A menu then offers four searches over the
catalog:

- by type (a substring match that ignores case);
- the free tools (price zero);
- by tag (the lowercased term must equal a tag);
- a keyword "smart" search (every word of the query must occur in the
  tool's text).

The project has four modules:

- `Wrappers` (`wrappers.dfy`): `Option` and `Result`.
- `Text` (`text.dfy`): the Python string built-ins the code relies on.
  These are `str.isspace`, `strip()`, `split(sep)`, `split()`, `join`,
  `lower()`, the substring test `in`, and `int()` in base 10.
- `Catalog` (`catalog.dfy`): the record `Tool`, the per-line parse
  `ParseLine`, the loader as a specification function `Load`, and the
  loader loop as the method `LoadDatabase`, proved equal to `Load`.
- `Filters` (`filters.dfy`): one search function `Select` over a
  `Query`, the three list-comprehension searches built on it, the smart
  search's match rule as `SmartSearchResult`, and its loop as the method
  `SmartSearch`, proved equal to it.

What `Chatbot.py` does at the points where a reader might expect otherwise:

- **A bad price stops the load.** `int()` raises `ValueError` at
  Chatbot.py:29 and nothing catches it, so the whole load fails. The line
  is not just skipped. `Load` returns `Err(InvalidPrice(literal))` for the
  first such line.
- **The tag search compares exactly.** At Chatbot.py:106 the lowercased
  term must equal one of the stored tags. Tags are not lowercased, so a tag
  with a capital letter is never found.
- **Smart search treats every word alike.** At Chatbot.py:56-62 each word
  of the query, `free` and `paid` included, is looked for in the tool's
  text. The price plays no part.
- **An empty smart-search query ends the search** (Chatbot.py:53-54). A
  query made only of blanks is not empty. It has no words, so it finds
  every tool.

## Model

| member | source | states |
|---|---|---|
| Catalog.LoadDatabase | Chatbot.py:16-34 | the loader loop returns exactly `Load(lines)`: records appended in line order, blank and wrong-width lines skipped, the first bad price ending the load with its error |
| Catalog.ParseLine | Chatbot.py:18-30 | specified by `ParseLineShape`, `TagsShape` and `ParseRecordLine`: what one line becomes (skipped, record, or price error) |
| Catalog.Fields | Chatbot.py:21 | specified by `FieldCount` and the `StripAll` contract: one stripped field per comma-separated piece of the stripped line |
| Catalog.ParseTags | Chatbot.py:30 | specified by `TagsShape`: one stripped tag per semicolon-separated piece |
| Catalog.Load | Chatbot.py:17-34 | specified by `LoadOutcome`, `LoadConcat`, `LoadFirstBadPrice`, `LoadSkipsLine` and `LoadKeepsRecord`; computed by `LoadDatabase` |
| Catalog.ParseLineShape | Chatbot.py:18-30 | a line is skipped as blank iff it is all whitespace; it yields a record or a price error iff it is not blank and has exactly four commas; a record's name, type and developer are the first three fields, stripped; its tags are the parsed fifth field and its price is `int()` of the fourth; a price error carries the stripped fourth field, which `int()` rejects; each field is its comma-separated piece with only surrounding whitespace removed |
| Catalog.FieldCount | Chatbot.py:21 | a line has one field more than it has commas |
| Catalog.TagsShape | Chatbot.py:30 | a tag field yields one tag more than it has semicolons; each tag is its semicolon-separated piece with only surrounding whitespace removed, and holds no semicolon; a blank field gives the single tag `""` |
| Catalog.StripAll | Chatbot.py:21 | one result per part, in order; each result is stripped and is its part with only surrounding whitespace removed |
| Catalog.Outcomes | Chatbot.py:17-30 | one outcome per line of the file, the line's own parse, in line order; specified by its length ensures and `OutcomesConcat` |
| Catalog.OutcomesConcat | Chatbot.py:17 | the outcomes of two runs of lines are those of the first run followed by those of the second |
| Catalog.Collect | Chatbot.py:17-32 | the append loop over the line outcomes; specified by `CollectShape`, `CollectConcat`, `CollectOne` and `CollectFirstBadPrice` |
| Catalog.CollectShape | Chatbot.py:17-32 | walking the line outcomes fails iff some outcome is a bad price; on success a tool is in the result iff some line parsed to it |
| Catalog.CollectConcat | Chatbot.py:17-32 | walking two runs of outcomes: the first error wins, otherwise the records of both runs are concatenated in order |
| Catalog.CollectOne | Chatbot.py:18-32 | a single outcome: a bad price is an error, a record is a one-record catalog, a skipped line is the empty catalog |
| Catalog.CollectFirstBadPrice | Chatbot.py:29 | the error reported is the one of the first bad-price outcome |
| Catalog.LoadConcat | Chatbot.py:17-34 | loading two runs of lines: the first error wins, otherwise the two catalogs are concatenated, so records keep file order |
| Catalog.LoadOneLine | Chatbot.py:18-32 | loading one line: bad price gives its error, a record gives a one-record catalog, a skipped line the empty catalog |
| Catalog.LoadStep | Chatbot.py:17-32 | one more line after a prefix that loaded: its record is appended, a skipped line changes nothing, a bad price is the error |
| Catalog.LoadPrefixStep | Chatbot.py:17-32 | the loop step: line i extends the catalog of lines before it, and a bad price at line i is the result of the whole load |
| Catalog.LoadErrorStays | Chatbot.py:29 | once a prefix of the lines fails, the whole load fails with the same error |
| Catalog.LoadSkipsLine | Chatbot.py:18-23 | removing a blank line or a line without five fields leaves the load unchanged |
| Catalog.LoadKeepsRecord | Chatbot.py:23-32 | a parsed line puts its record between the records of the lines before and after it |
| Catalog.LoadOutcome | Chatbot.py:17-34 | the load fails iff some line has a bad price; otherwise a tool is in the catalog iff some line parses to it |
| Catalog.LoadFirstBadPrice | Chatbot.py:29 | with bad prices on several lines, the error names the price of the first |
| Catalog.LoadRejectsPrice | Chatbot.py:23-29 | a line of five clean fields whose price `int()` rejects is not skipped but makes the load fail with that price |
| Catalog.RecordFieldsClean | Chatbot.py:21-30 | the five fields a record is written as are stripped and free of commas |
| Catalog.RecordLineNotBlank | Chatbot.py:18 | the line a record is written as is never blank |
| Catalog.RecordLineFields | Chatbot.py:21 | the line a record is written as splits back into exactly its five fields |
| Catalog.ParseRecordLine | Chatbot.py:21-30 | reading the line a writable record is written as gives back that record, for every price including negative ones |
| Text.Strip | Chatbot.py:18 | the result neither starts nor ends with whitespace, and is empty iff the input is all whitespace |
| Text.StripParts | Chatbot.py:21 | the input is whitespace, then the stripped text, then whitespace |
| Text.StripFrom | Chatbot.py:21 | the input is its strip with only whitespace around it |
| Text.StripOf | Chatbot.py:21 | stripping whitespace around a stripped core gives back the core |
| Text.StripIdempotent | Chatbot.py:21 | stripping twice is stripping once |
| Text.StripStripped | Chatbot.py:21 | a stripped string is its own strip |
| Text.StripKeepsCount | Chatbot.py:21 | stripping keeps every non-whitespace character, so commas are counted the same before and after |
| Text.Split | Chatbot.py:21 | splitting on a separator yields at least one piece |
| Text.SplitPieces | Chatbot.py:21 | one piece more than separators, and no piece holds the separator |
| Text.JoinOfSplit | Chatbot.py:21 | joining the pieces with the separator gives back the input |
| Text.SplitOfJoin | Chatbot.py:30 | splitting a join of pieces that avoid the separator gives back the pieces |
| Text.SplitNoSeparator | Chatbot.py:30 | a field without a separator is one piece |
| Text.SplitAfterPiece | Chatbot.py:21 | a piece before a separator is split off as it is |
| Text.Words | Chatbot.py:56 | specified by `WordsShape`, `WordsOfWord` and `WordsConcat`: the maximal whitespace-free runs of the text, in order |
| Text.WordsShape | Chatbot.py:56 | words are non-empty and hold no whitespace; there are none iff the text is all whitespace; a text starting with a non-blank starts with its first word, so the word begins with the text's first character |
| Text.LeadingWord | Chatbot.py:56 | the text's first run of non-whitespace characters ends at the end of the text or at a whitespace character |
| Text.LeadingWordIs | Chatbot.py:56 | any such run is the one `LeadingWord` finds |
| Text.WordsOfWord | Chatbot.py:56 | a single word splits into itself |
| Text.WordsConcat | Chatbot.py:56 | whitespace between two texts separates their words |
| Text.Lower | Chatbot.py:52 | the result has the input's length; each capital letter becomes its small letter (code + 32), and every other character is unchanged |
| Text.LowerIdempotent | Chatbot.py:60 | lowercasing twice is lowercasing once |
| Text.LowerConcat | Chatbot.py:60 | lowercasing distributes over concatenation |
| Text.LowerKeepsSpace | Chatbot.py:52 | lowercasing leaves whitespace where it was |
| Text.Join | Chatbot.py:60 | specified by `JoinOfSplit`, `SplitOfJoin` and `ContainsPiece`: the pieces in order with the separator between them |
| Text.Contains | Chatbot.py:61 | specified by `ContainsAt`: the needle starts at some position of the haystack |
| Text.ContainsAt | Chatbot.py:79 | the substring test holds iff the needle starts at some position of the haystack |
| Text.ContainsInLeft | Chatbot.py:61 | a text found in the left part is found in the whole |
| Text.ContainsInRight | Chatbot.py:61 | a text found in the right part is found in the whole |
| Text.ContainsPiece | Chatbot.py:60 | each joined piece occurs in the join |
| Text.ContainsLower | Chatbot.py:79 | a substring stays a substring once both are lowercased |
| Text.ParseInt | Chatbot.py:29 | an accepted literal ends in a digit once stripped, and a negative value comes from a leading minus |
| Text.ParseDigits | Chatbot.py:29 | `int()` reads a plain run of digits as its decimal value |
| Text.ParseNegativeDigits | Chatbot.py:29 | `int()` reads a minus sign and a run of digits as the negated value |
| Text.ParseShowInt | Chatbot.py:29 | `int()` reads back every integer as printed, negative ones included |
| Text.ParseIntRejects | Chatbot.py:29 | a literal with a character that is no digit, sign, underscore or whitespace is rejected |
| Text.ShowNat | Chatbot.py:29 | the digits printed for n are non-empty digits whose value is n |
| Filters.Select | Chatbot.py:79 | a search returns at most as many tools as the database holds |
| Filters.SelectSubsequence | Chatbot.py:79 | a search result is a subsequence of the database |
| Filters.SelectCount | Chatbot.py:92 | a tool that passes appears as often as in the database, any other tool not at all |
| Filters.SelectMembers | Chatbot.py:106 | a tool is in the result iff it is in the database and passes the test |
| Filters.SelectCons | Chatbot.py:79 | a search of a database with one tool in front is that tool's share followed by the search of the rest |
| Filters.SelectConcat | Chatbot.py:58-62 | searching two parts and concatenating the results is searching the whole |
| Filters.SelectSnoc | Chatbot.py:58-62 | one more tool of the database appends it to the result iff it passes |
| Filters.SelectAll | Chatbot.py:79 | when every tool passes, the result is the database unchanged |
| Filters.SelectNarrower | Chatbot.py:61 | a stricter test's result is the looser test's result searched again |
| Filters.SearchByType | Chatbot.py:79 | specified by `SearchByTypeSpec`, `SearchByTypeFinds`, `SearchByTypeEmpty` and `SelectCount` |
| Filters.FindFreePlugins | Chatbot.py:92 | specified by `FindFreePluginsSpec` |
| Filters.FindByTag | Chatbot.py:106 | specified by `FindByTagSpec` and `FindByTagMissesCapitals` |
| Filters.Matches | Chatbot.py:61-106 | the test one tool must pass in each of the four searches (lines 61, 79, 92 and 106); specified by `SearchByTypeSpec`, `FindFreePluginsSpec`, `FindByTagSpec`, `SmartSearchSpec` and `SelectMembers` |
| Filters.QueryWords | Chatbot.py:56 | the distinct words of the query; specified by `QueryWordsJoin`, `WordsMatch` and `SmartSearchSpec` |
| Filters.WordsMatch | Chatbot.py:56-61 | a tool passes the all-words test for the set of a word list iff its search text contains every entry of the list |
| Filters.SearchText | Chatbot.py:60 | used by `SmartSearchSpec` and `TagHitIsSmartHit`: name, type, developer and tags, blank-separated, lowercased |
| Filters.SmartSearchResult | Chatbot.py:53-62 | specified by `SmartSearchCancels`, `SmartSearchSpec`, `SmartSearchBlank`, `SmartSearchWordOrder`, `SmartSearchRepeat` and `SmartSearchNarrows`; computed by `SmartSearch` |
| Filters.SearchByTypeSpec | Chatbot.py:78-79 | a tool is found iff its lowercased type contains the lowercased term; results keep database order |
| Filters.SearchByTypeFinds | Chatbot.py:78-79 | a tool is found by every term that equals, up to letter case, a text occurring in its type |
| Filters.SearchByTypeIgnoresCase | Chatbot.py:78-79 | the term "eq" finds a tool of type "EQ" |
| Filters.SearchByTypeEmpty | Chatbot.py:78-79 | the empty term finds every tool, in order |
| Filters.FindFreePluginsSpec | Chatbot.py:92 | exactly the price-zero tools, each as often as in the database, in database order |
| Filters.FindByTagSpec | Chatbot.py:105-106 | a tool is found iff one of its tags equals the lowercased term exactly; results keep database order |
| Filters.FindByTagMissesCapitals | Chatbot.py:105-106 | a tool whose every tag has a capital letter is found by no term |
| Filters.SmartSearch | Chatbot.py:52-62 | the loop returns exactly `SmartSearchResult(db, query)` |
| Filters.SmartSearchCancels | Chatbot.py:52-54 | the search ends iff the query is empty |
| Filters.SmartSearchSpec | Chatbot.py:56-62 | for a non-empty query, a tool is found iff its search text contains every word of the lowercased query; results keep database order |
| Filters.SmartSearchBlank | Chatbot.py:53-61 | a query of blanks only is not a cancel and finds every tool |
| Filters.QueryWordsJoin | Chatbot.py:56 | the words of two queries joined by a blank are the words of both |
| Filters.SmartSearchWordOrder | Chatbot.py:56-61 | swapping two parts of the query does not change the result |
| Filters.SmartSearchRepeat | Chatbot.py:56-61 | repeating the query's words does not change the result |
| Filters.SmartSearchNarrows | Chatbot.py:56-62 | adding words gives the shorter query's result searched again, a subsequence of it |
| Filters.TagHitIsSmartHit | Chatbot.py:60-61 | a tool found by tag with a one-word term is found by smart search with that term |
| Filters.SmartSearchNeedsEveryWord | Chatbot.py:60-61 | a tool whose text lacks one query word is not found; the price plays no part, so a free tool lacking the word "free" is not found for it |

## Left out

- Reading the file (Chatbot.py:8-14): the model starts from the lines
  already read; opening the file and the "not found" branch that prints
  a message and returns an empty catalog are not modelled.
- `print_tool_details` (Chatbot.py:36-44): output formatting only.
- The input prompts, the "search again? (y/n)" loops and the main menu
  (Chatbot.py:51-52, 64-73, 77-88, 93-99, 104-115, 117-144): console I/O.
  Each search is modelled as one round on a given term.
- Text.Lower: lowercases ASCII letters only; Python's `lower()` also
  folds other Unicode capitals.
- Text.ParseInt: accepts ASCII digits only; Python's `int()` also
  accepts other Unicode decimal digits. The limit of 4300 digits in
  recent Python versions is not modelled. Around the literal it skips
  every `str.isspace` character, U+001C to U+001F included, where
  Python's `int()` rejects those four. The loader strips the price
  field (Chatbot.py:21) with the same set before it calls `int()`
  (Chatbot.py:29), so loading is unaffected.
- The catalog of a crashed load: Python ends the program with the
  uncaught `ValueError`. The model returns the error value instead.
- Catalog.ParseRecordLine: proved only for records that a line can hold.
  Their text fields are stripped and free of commas, and their tags are
  free of semicolons. The record must have at least one tag.
