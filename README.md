# survival-app, modelled in Dafny

survival-app is a statistics web application for survival analysis. Users type or import a
data grid in the browser. They tick variables in three panels:
- descriptive statistics;
- survival analysis;
- distribution estimation, which compares the fits by AIC and BIC.

The Django backend cleans the request, asks a language model for the most likely
distribution, fits and compares six candidate distributions, and answers with a report.
A separate chat page talks to the same language model.

This project models the decision logic of both sides and proves what it promises.

**Client.** The client code mutates state step by step, so it is modelled as classes whose methods change fields under `modifies` clauses:
- the grid, the variable lists and checkboxes;
- the per-panel selection maps and header snapshots;
- the result blocks, loaders and alerts;
- the chat's message list and its generating flag.

Each method is proved against a specification function. The properties are stated as lemmas about those functions. Examples:
- the survival panel refuses `event_status` before `time_to_event`;
- a request payload holds exactly the selected variables' truthy cells, so status zeros are dropped;
- the best-by-AIC and best-by-BIC scans find the first strict minimum;
- the PDF export's page breaks;
- the older single-file client (`tes.js`) shares one selection map between two panels, and its `removeStatistics` ignores its argument.

**Backend.** The backend code is pure, so it is modelled as datatypes, functions and lemmas:
- request cleaning, the prompt branches and the candidate-name search;
- category counting and the statistics guards;
- the AIC/BIC formulas and their input checks;
- the per-distribution evaluation and the best-AIC choice;
- the status-code dispatch of the two endpoints.

Python exceptions become `Result` values. The exception hierarchy is kept: `StatisticsError` is a `ValueError`.

**What stays outside.** The language model, the scipy and lifelines numerics, JSON parsing and the spreadsheet library are parameters of the functions that call them. Their results are arbitrary inputs. A plot is recorded rather than drawn, but the plotting functions' own checks are kept: with times and no best distribution, or with a status list of another length, drawing the figures raises and the survival endpoint answers 500.

**Selectors.** The client finds checkboxes and result blocks with `querySelector('[data-variable="' + name + '"]')`, the name spliced in unescaped. A name with no quote, backslash, newline or NUL is compared as itself. For any other name, what the browser makes of the selector (a SyntaxError, or a different value to compare) is an input, and the lemmas state what follows: a thrown error leaves the blocks in place, and a name read as another value never finds its own block.

**Shared modules.**
- `Common`: `Option` and `Result`.
- `Dict`: insertion-ordered dictionaries for JavaScript objects and Python dicts.
- `Json`: JavaScript values.
- `JsString`: `trim`, `split`, `join` and `includes`.
- `Grid`: cells and the grid.
- `Selection`: the payload builder shared by the survival and estimation panels.
- `Responses`: the HTTP error chain and the friendly-message tables.
- `Categories`: the category totals.
- `Ranking`: the first-minimum scan.
- `Selector`: how an attribute selector built from a name is read.
- `PyValue`: Python values, exceptions and IEEE floats.

Cookies are read in the `name=value; ...` form of section 4.2.1 of RFC 6265. The percent-decoding of section 2.1 of RFC 3986 is a function parameter.

## Model

| member | source | states |
|---|---|---|
| Utils.CreateVariableList | dino_chatbot/static/js/Utils.js:15-38 | the loop builds exactly the list `VariableList` specifies, or the TypeError a numeric header makes `trim` throw |
| Utils.VariableList | dino_chatbot/static/js/Utils.js:15-38 | the TypeError when some header is a number, otherwise the entries of the listed headers; its properties are the rows for VariableListSpec, EntriesListed, EntriesIncreasing and EntriesColumns |
| Utils.ListedColumns | dino_chatbot/static/js/Utils.js:19-20 | a column is listed exactly when its header is a string whose trim is non-empty |
| Utils.VariableListSpec | dino_chatbot/static/js/Utils.js:19-35 | the list fails iff some header is a number; otherwise each entry comes from a listed header with its column index, trimmed name and " " + raw label, indices strictly increase, and the entries cover exactly the listed columns |
| Utils.EntriesListed | dino_chatbot/static/js/Utils.js:19-32 | every entry made from the first n headers is the entry of a listed header before n |
| Utils.EntriesIncreasing | dino_chatbot/static/js/Utils.js:19-26 | entry indices strictly increase (and may skip columns) |
| Utils.EntriesColumns | dino_chatbot/static/js/Utils.js:19-20 | the columns of the entries are exactly the listed columns |
| Utils.PaddedHeaderNotSent | dino_chatbot/static/js/SurvivalModule.js:57-74 | when the only header that trims to a variable name is padded with white space, `indexOf` in the snapshot answers -1 and the variable is never sent |
| Utils.FirstStarting | dino_chatbot/static/js/Utils.js:47-52 | the loop's stopping position: the first entry with the prefix, none before it, or the end |
| Utils.CookieEntries | dino_chatbot/static/js/Utils.js:46 | one entry per ";"-separated part, each trimmed |
| Utils.GetCookie | dino_chatbot/static/js/Utils.js:41-56 | null for an empty cookie string; otherwise the decoded remainder of the first entry starting with name + "=", or null when none does |
| Utils.CookieValue | dino_chatbot/static/js/Utils.js:46-52 | the decoded text after name + "=" of the first trimmed entry that starts with it, or null; FirstStartingAt and FirstEntryWins state which entry that is |
| Utils.FirstStartingAt | dino_chatbot/static/js/Utils.js:47-52 | the first matching position is the one where the entry matches and no earlier entry does |
| Utils.LongerNameDoesNotMatch | dino_chatbot/static/js/Utils.js:49 | an entry whose name only begins with `name` ("csrftokenX=") does not match |
| Utils.FirstEntryWins | dino_chatbot/static/js/Utils.js:47-51 | of two matching entries, the first is the one chosen; later duplicates are ignored |
| Utils.Page.constructor | dino_chatbot/static/js/Utils.js:3 | the page starts with the given containers, elements and displayed set |
| Utils.Page.ToggleContainer | dino_chatbot/static/js/Utils.js:2-12 | every container is hidden, then the element with that id (if it exists) is shown; nothing else changes |
| Utils.ToggleShowsOnlyOne | dino_chatbot/static/js/Utils.js:3-11 | after the toggle the only container displayed is the requested one; an unknown id leaves all hidden |
| Grid.BlankVersusTruthy | dino_chatbot/static/js/DataHandlers.js:13 | a cell the guards call empty (null, undefined, "") is never truthy, and the only cell that is neither empty nor truthy is the number 0 |
| Grid.Truthy | dino_chatbot/static/js/SurvivalModule.js:66 | a cell `filter(Boolean)` keeps: a non-empty string or a non-zero number |
| Grid.At | dino_chatbot/static/js/SurvivalModule.js:66 | `row[i]` is undefined outside the row |
| Grid.CellsAt | dino_chatbot/static/js/SurvivalModule.js:66 | one cell per row, the cell of column i |
| Grid.KeepTruthy | dino_chatbot/static/js/SurvivalModule.js:66 | `filter(Boolean)` keeps only truthy cells of the input and every truthy cell value, and is no longer than the input |
| Grid.KeepTruthyCounts | dino_chatbot/static/js/SurvivalModule.js:66 | each truthy cell value is kept as often as it occurs in the input, and a falsy one never |
| Grid.KeepTruthyInOrder | dino_chatbot/static/js/SurvivalModule.js:66 | the result is read off exactly the truthy positions of the input, in increasing order |
| Grid.TruthyColumn | dino_chatbot/static/js/SurvivalModule.js:63-66 | the column below the header row with its falsy cells dropped; nothing for an empty grid |
| Grid.MaxWidth | dino_chatbot/static/js/TableModule.js:47-63 | no row is wider than the result, and a non-empty grid has a row that wide |
| Grid.Pad | dino_chatbot/static/js/TableModule.js:61 | a padded row keeps the row as its prefix and adds only nulls, up to the width |
| Grid.PadRows | dino_chatbot/static/js/TableModule.js:61 | every row is padded to the width, none added or removed |
| Grid.Normalize | dino_chatbot/static/js/TableModule.js:60-61 | loaded rows in the grid's shape: at least 14 rows, all of one width of at least 7 and at least the widest loaded row |
| Grid.NormalizeKeepsCells | dino_chatbot/static/js/TableModule.js:60-61 | every loaded cell stays where it was and every added cell is null |
| Grid.NormalizeWellFormed | dino_chatbot/static/js/TableModule.js:60-61 | a grid already in that shape is left as it is |
| Grid.NormalizeIdempotent | dino_chatbot/static/js/TableModule.js:60-61 | normalising twice is normalising once |
| Grid.Table.constructor | dino_chatbot/static/js/TableModule.js:47-63 | the component starts with its data in the grid's shape |
| Grid.Table.CountRows | dino_chatbot/static/js/DataHandlers.js:47 | the row count, at least 14 |
| Grid.Table.CountCols | dino_chatbot/static/js/DataHandlers.js:48 | the common width of all rows, at least 7 |
| Grid.Table.LoadData | dino_chatbot/static/js/DataHandlers.js:54 | `loadData` replaces the rows wholesale, in the grid's shape |
| JsString.Trim | dino_chatbot/static/js/Utils.js:20-27 | `trim()`: no longer than the input, and empty or starting and ending with a character that is not white space |
| JsString.TrimStartSuffix | dino_chatbot/static/js/Utils.js:27 | the leading part removed by trimming is white space and the rest is a suffix of the input |
| JsString.TrimEndPrefix | dino_chatbot/static/js/Utils.js:27 | the trailing part removed by trimming is white space and the rest is a prefix of the input |
| JsString.TrimEmptyIffWhite | dino_chatbot/static/js/Utils.js:20 | `header.trim()` is falsy exactly for headers made only of white space |
| JsString.Split | dino_chatbot/static/js/script.js:42 | `split(" ")` gives at least one piece and no piece holds the separator |
| JsString.JoinSplit | dino_chatbot/static/js/script.js:42-49 | joining the pieces of a split with the same separator gives the input back |
| JsString.IsNumericString | dino_chatbot/static/js/DescriptiveModule.js:87 | `!isNaN` of a string: after trimming it is empty or a numeric literal |
| Chat.GreetingPartition | dino_chatbot/static/js/script.js:8-20 | for hours 0-23 each greeting is returned exactly on its range: Morning 5-11, Afternoon 12-14, Evening 15-17, Night otherwise |
| Chat.Greeting | dino_chatbot/static/js/script.js:8-20 | `getGreeting()` for the local hour; GreetingPartition states which hours get which greeting |
| Chat.CloseAt | dino_chatbot/static/js/script.js:125 | the end of the lazy `(.*?)`: the first `**` on the same line, or none |
| Chat.StripBold | dino_chatbot/static/js/script.js:125 | the replacement never lengthens the text |
| Chat.StripBoldPlain | dino_chatbot/static/js/script.js:125 | text without `*` passes unchanged |
| Chat.BoldPairStripped | dino_chatbot/static/js/script.js:125 | a one-line `**w**` pair is replaced by w, and the rest is cleaned the same way |
| Chat.CloseAtSkips | dino_chatbot/static/js/script.js:125 | the lazy match stops at the first closing `**` |
| Chat.ReplyText | dino_chatbot/static/js/script.js:113-128 | a body that is falsy or not an object or array is the "not a valid object" error; an array and a falsy `result` become ""; a string result is shown with bold markers stripped; any other truthy `result` is the `replace` TypeError |
| Chat.ServerErrorMessage | dino_chatbot/static/js/script.js:100 | `result.error?.message || "Server Error"`: a null body throws, and a body without an error object gives "Server Error" |
| Chat.TypedAll | dino_chatbot/static/js/script.js:42-49 | after the last tick the typed text is the input itself |
| Chat.ChatPage.constructor | dino_chatbot/static/js/script.js:29-30 | no message yet, not generating, empty chat list |
| Chat.ChatPage.HandleOutgoingChat | dino_chatbot/static/js/script.js:173-191 | the trimmed input, or the previous message when it is blank, is sent unless there is none or a response is generating; sending sets the flag and appends the outgoing message |
| Chat.ChatPage.ShowLoadingAnimation | dino_chatbot/static/js/script.js:139-161 | an existing loading message is returned unchanged; otherwise one empty loading message is appended; at most one loading message exists afterwards |
| Chat.LoadingAt | dino_chatbot/static/js/script.js:140-141 | `document.querySelector(".message.loading")`: the first loading message, or none, with no loading message before it |
| Chat.ChatPage.GenerateApiResponse | dino_chatbot/static/js/script.js:113-136 | only the given message changes: it shows the error in error style, or has the cleaned text typed after it; the loading class is removed on every path |
| Chat.ChatPage.ShowTypingEffect | dino_chatbot/static/js/script.js:41-60 | word by word, the message ends with its old text followed by the input exactly, and the generating flag is cleared at the last word |
| Chat.ChatPage.OnReply | dino_chatbot/static/js/script.js:96-109 | a failed request or a non-OK answer only adds the "An error occurred: " alert and leaves the generating flag; an OK answer settles the loading message `showLoadingAnimation` finds (or a new one) and changes no other message: it shows the error text in error style and keeps the flag, or shows the text `ReplyText` gives with the flag cleared |
| Chat.ChatPage.DeleteChats | dino_chatbot/static/js/script.js:194-209 | a confirmed dialog empties the chat list; a dismissed one changes nothing |
| DataHandlers.GridIsEmpty | dino_chatbot/static/js/DataHandlers.js:9-17 | the flag stays true exactly when every cell is null, undefined or "" (a 0 cell makes the grid non-empty) |
| DataHandlers.ZeroCellIsNotEmpty | dino_chatbot/static/js/DataHandlers.js:13 | a grid holding 0 is not empty for the guards, though `filter(Boolean)` would drop that cell |
| DataHandlers.BlankGrid | dino_chatbot/static/js/DataHandlers.js:47-52 | the given number of rows, all of the given width, every cell "" |
| DataHandlers.BlankGridIsEmpty | dino_chatbot/static/js/DataHandlers.js:19-54 | a cleared grid is empty, so a second clear only shows the notice |
| DataHandlers.BlankGridWellFormed | dino_chatbot/static/js/DataHandlers.js:54 | loading a blank grid of the component's size leaves it as it is |
| DataHandlers.ClearData | dino_chatbot/static/js/DataHandlers.js:4-68 | nothing to clear iff the grid is empty; cancelled iff non-empty and the dialog is dismissed; both leave the grid unchanged; a confirmed clear gives a grid of the same row and column counts filled with "" |
| DataHandlers.ExportData | dino_chatbot/static/js/DataHandlers.js:71-114 | nothing is written iff the grid is empty; otherwise all rows, header included, go to "data.xlsx", sheet "Sheet1" |
| DataHandlers.ImportData | dino_chatbot/static/js/DataHandlers.js:116-159 | no file is a no-op; a successful read replaces the grid with the first sheet's rows; a failed read leaves the grid as it was |
| Descriptive.IsNumeric | dino_chatbot/static/js/DescriptiveModule.js:87 | `!isNaN(variableData[0])`: false for an empty column, otherwise whether the first kept cell is numeric |
| Descriptive.WhiteFirstCellIsNumeric | dino_chatbot/static/js/DescriptiveModule.js:82-87 | a white-space-only first cell is kept as truthy and makes the whole column numeric |
| Descriptive.RequestFor | dino_chatbot/static/js/DescriptiveModule.js:81-99 | the request carries the entry's variable name, exactly the column's truthy cells below the header row, and `isNumeric` of those cells; numeric only when there is data |
| Descriptive.Settle | dino_chatbot/static/js/DescriptiveModule.js:101-114 | a failed request fails with its message; a truthy `error` field fails with that error; otherwise an OK answer is displayed and a non-OK one fails with "Server error: <status>" |
| Descriptive.DisplayOnlyWhenOk | dino_chatbot/static/js/DescriptiveModule.js:101-111 | a reply is displayed iff it is an OK answer with a body and without a truthy `error` |
| Descriptive.Renderable | dino_chatbot/static/js/DescriptiveModule.js:199-275 | `buildStatisticsTable` completes: a numeric result, or a categorical one whose `categoryCount` is neither null nor undefined |
| Descriptive.FindBlock | dino_chatbot/static/js/DescriptiveModule.js:302 | once the selector has parsed to a value, `querySelector` finds the first block whose `data-variable` is that value, or none |
| Descriptive.RemoveBlock | dino_chatbot/static/js/DescriptiveModule.js:302-306 | the block found for the value is removed; RemoveBlockShift states the result |
| Descriptive.AfterRemove | dino_chatbot/static/js/DescriptiveModule.js:301-307 | a selector that does not parse throws and leaves every block; one that parses removes the first block for its value |
| Descriptive.RemoveBlockShift | dino_chatbot/static/js/DescriptiveModule.js:301-307 | removal deletes only the first block for the name and shifts the later ones down; without one nothing changes |
| Descriptive.RemoveBlockSpec | dino_chatbot/static/js/DescriptiveModule.js:301-307 | removal keeps the page invariant that only names whose selector misses their own blocks can appear twice, and for a name whose selector finds itself no block for it remains |
| Descriptive.RemoveBlockDistinct | dino_chatbot/static/js/DescriptiveModule.js:301-307 | with distinct names, no block for the value remains and names stay distinct |
| Descriptive.RemoveBlockKeepsOthers | dino_chatbot/static/js/DescriptiveModule.js:301-307 | every block of another variable is kept |
| Descriptive.DisplayKeepsOneBlock | dino_chatbot/static/js/DescriptiveModule.js:127-132 | when the selector parses, rendering removes the block it finds and appends the new one last, keeping the page invariant; for a name whose selector finds itself exactly one block for it remains |
| Descriptive.RedisplayDuplicates | dino_chatbot/static/js/DescriptiveModule.js:127-132 | a name whose selector reads another value (a backslash taken as an escape) never finds its own block, so rendering it again leaves two blocks with that name |
| Descriptive.PlainBlocksDistinct | dino_chatbot/static/js/DescriptiveModule.js:127-132 | on a page whose block names are all plain, the invariant means no two blocks share a name |
| Descriptive.DescriptivePanel.constructor | dino_chatbot/static/js/DescriptiveModule.js:4-5 | no list, no blocks, no notices |
| Selector.Parse | dino_chatbot/static/js/DescriptiveModule.js:302 | a name without a quote, backslash, newline or NUL is compared as itself, as the CSS string token copies it unchanged; any other name is read as the browser reads it, an error or some value |
| Descriptive.DescriptivePanel.Open | dino_chatbot/static/js/DescriptiveModule.js:42-65 | the output is emptied and the list rebuilt from the header row, all unchecked; no list when `createVariableList` throws |
| Descriptive.DescriptivePanel.RemoveStatistics | dino_chatbot/static/js/DescriptiveModule.js:301-307 | a selector that does not parse throws its SyntaxError and nothing changes; otherwise the first block for the parsed value goes, and for a name whose selector finds itself no block for the name is left; the list, boxes and notices are unchanged |
| Descriptive.DescriptivePanel.Toggle | dino_chatbot/static/js/DescriptiveModule.js:67-125 | checking makes the box pending (checked, disabled, dimmed), keeps the blocks and sends the request for the column; unchecking clears the box and removes what `removeStatistics` removes for that variable, and sends nothing |
| Descriptive.DescriptivePanel.OnReply | dino_chatbot/static/js/DescriptiveModule.js:101-128 | a displayable reply whose name's selector parses replaces the block found for it with the new one last and re-enables the box, which stays checked; a selector that does not parse, a failed reply or a table that cannot be built unchecks and re-enables the box and adds "Failed to load statistics: " with the error, and adds no block |
| Descriptive.DescriptivePanel.Close | dino_chatbot/static/js/DescriptiveModule.js:173-177 | when the selector parses, the block found for its value goes and the first checkbox for that value is unchecked; when it does not, `removeStatistics` throws and nothing changes; a name whose selector finds itself has no block left |
| Descriptive.FirstEntryFor | dino_chatbot/static/js/DescriptiveModule.js:175 | the first checkbox whose `data-variable` is the parsed value, or none |
| Categories.Percentage | dino_chatbot/static/js/DescriptiveModule.js:272 | the percentage is the count's share of the total, times 100 |
| Categories.Percentages | dino_chatbot/static/js/DescriptiveModule.js:271-272 | one percentage per category, each against the same total |
| Categories.PercentagesSumTo100 | dino_chatbot/static/js/DescriptiveModule.js:270-272 | with the sum of all counts as denominator, the percentages add up to 100 |
| Categories.SumOfScaled | dino_chatbot/static/js/DescriptiveModule.js:270-272 | the percentages add up to the total of the counts over the denominator, times 100 |
| Categories.PositiveShares | dino_chatbot/static/js/DescriptiveModule.js:270-272 | with positive counts the total is positive and every category's share is positive |
| Categories.TotalPositive | dino_chatbot/static/js/DescriptiveModule.js:270 | the sum of positive counts is positive for a non-empty list |
| ExportExcel.NumericRows | dino_chatbot/static/js/ExportExcel.js:8-21 | exactly 11 rows: ["Statistic","Value"], then Mean, Median, Mode, Standard Deviation, Skewness, Kurtosis, Minimum, Maximum, Sum, Count, in that order, each with its field's value |
| ExportExcel.Counts | dino_chatbot/static/js/ExportExcel.js:24 | one count per entry of `categoryCount`, in key order, as the reduce reads it |
| ExportExcel.PercentText | dino_chatbot/static/js/ExportExcel.js:27 | the formatted share for a non-zero total; NaN or an infinity for a zero total |
| ExportExcel.CategoryRows | dino_chatbot/static/js/ExportExcel.js:23-30 | ["Category","Count","Percentage"] followed by one three-cell row per category, in key order |
| ExportExcel.CountOf | dino_chatbot/static/js/ExportExcel.js:24 | a count as `sum + count` reads it: a number as itself, a boolean as 0 or 1, anything else as 0 (see Left out) |
| ExportExcel.CategoryRow | dino_chatbot/static/js/ExportExcel.js:27-28 | one category's row: its key, its count as sent, and its percentage text with "%" |
| ExportExcel.SheetRows | dino_chatbot/static/js/ExportExcel.js:7-30 | the 11 numeric rows for type "Numeric", else the categorical rows; a failure for a null body or a missing `categoryCount` |
| ExportExcel.ExportToExcel | dino_chatbot/static/js/ExportExcel.js:1-44 | when the library loads and the rows can be built, the rows go to variableName + "_statistics.xlsx", sheet "Statistics"; otherwise nothing is written or shown, because the `catch` calls `showErrorNotification`, which is not in scope in this file, and itself fails with its ReferenceError; any type other than "Numeric" takes the categorical branch |
| ExportExcel.CategoryData | dino_chatbot/static/js/ExportExcel.js:23-29 | the reduce and the push loop build exactly the categorical rows, with the sum of all counts as total |
| ExportExcel.ExportedShares | dino_chatbot/static/js/ExportExcel.js:24-28 | each written percentage is its category's share of the sum of all counts, and with a non-zero sum the shares add up to 100 |
| ExportExcel.PercentCellsEndInPercent | dino_chatbot/static/js/ExportExcel.js:28 | every percentage cell is a string ending in "%" |
| Json.Field | dino_chatbot/static/js/SurvivalModule.js:98-105 | reading a property gives undefined on a non-object or for a missing key |
| Json.IsTruthy | dino_chatbot/static/js/DescriptiveModule.js:110 | JavaScript truthiness: undefined, null, false, 0 and "" are falsy, everything else truthy |
| Json.ObjectEntries | dino_chatbot/static/js/ExportExcel.js:26 | `Object.entries`: an object's keys in order, one entry per array item or character, nothing for a number or boolean |
| Responses.MessageText | dino_chatbot/static/js/SurvivalModule.js:98-106 | `new Error(v).message` keeps a string as it is |
| Responses.ErrorMessage | dino_chatbot/static/js/SurvivalModule.js:88-99 | a null body throws on `.error`; otherwise the body's truthy `error`, else the per-status text, else the fallback ("Request failed") |
| Responses.ErrorMessageNonEmpty | dino_chatbot/static/js/SurvivalModule.js:98 | with a non-empty fallback and a string or falsy `error`, the message is never empty |
| Responses.FirstContained | dino_chatbot/static/js/SurvivalModule.js:126-128 | the loop stops at the first key the message includes, none before it, or runs to the end |
| Responses.Friendly | dino_chatbot/static/js/SurvivalModule.js:117-130 | the text of the first key the message includes; when there is none, the raw message, or the fallback when that is empty |
| Responses.ShadowedKey | dino_chatbot/static/js/SurvivalModule.js:120-128 | a later key that contains an earlier key is never the one found |
| Responses.ShadowedText | dino_chatbot/static/js/SurvivalModule.js:120-129 | the text of such a shadowed key is never returned when it differs from every other text and from the fallback, and itself contains the earlier key |
| Selection.IndexOf | dino_chatbot/static/js/SurvivalModule.js:61 | `indexOf` with strict equality: the first string cell equal to the name, or -1 exactly when there is none |
| Selection.SentVariables | dino_chatbot/static/js/SurvivalModule.js:59-62 | a variable is sent iff it is in the selection, true, and found in the header snapshot |
| Selection.PrepareSelectedData | dino_chatbot/static/js/SurvivalModule.js:57-74 | the loop builds one key per selected variable found in the snapshot, in selection order, each holding its column's truthy cells from row 1 on |
| Selection.PayloadVariables | dino_chatbot/static/js/EstimationModule.js:36-50 | the payload holds exactly the selected variables present in the header snapshot |
| Selection.KeepTruthyAll | dino_chatbot/static/js/SurvivalModule.js:66 | a column with only truthy cells is sent whole |
| Selection.KeepTruthyDrops | dino_chatbot/static/js/SurvivalModule.js:66 | a column with a falsy cell is sent shorter than it is |
| Selection.StatusZeroShortensPayload | dino_chatbot/static/js/SurvivalModule.js:66 | a recorded 0 (censored) in event_status is dropped, so with a complete time column the two lists sent differ in length, which view/distributions.py:20-21 rejects |
| Survival.ExhaustedQuotaNeverShown | dino_chatbot/static/js/SurvivalModule.js:117-130 | "quota" precedes "insufficient_quota" and occurs inside it, so the exhausted-quota text is never returned, whatever the message |
| Survival.FriendlyMessage | dino_chatbot/static/js/SurvivalModule.js:117-130 | `getUserFriendlyMessage` never returns an empty text, and returns a non-empty message that contains no key unchanged |
| Survival.QuotaInsideKey | dino_chatbot/static/js/SurvivalModule.js:120-121 | "quota" occurs inside "insufficient_quota" |
| Survival.QuotaInsideText | dino_chatbot/static/js/SurvivalModule.js:120-121 | "quota" occurs inside the exhausted-quota text itself |
| Survival.TextsDistinct | dino_chatbot/static/js/SurvivalModule.js:118-129 | the exhausted-quota text differs from every other text and from the fallback |
| Survival.Settle | dino_chatbot/static/js/SurvivalModule.js:87-114 | a failed request fails with its message; a non-OK answer fails with `err.error`, the status text or "Request failed"; only an OK answer without a truthy `error`, with non-null results and whose result renders reaches the ranking, with the entries of `all_distributions_results`; a result whose rendering throws fails with that error |
| Survival.MissingResultsFail | dino_chatbot/static/js/SurvivalModule.js:535 | an answer without `all_distributions_results` makes `Object.entries` throw and ends in the error display |
| Survival.RenderFault | dino_chatbot/static/js/SurvivalModule.js:509-600 | the first error `generateSurvivalResponse` throws after the ranking: a truthy interpretation that is no string, then a truthy `kaplan_meier` whose timeline is nullish or has a row that does not format; RendersIff states when there is none |
| Survival.RendersIff | dino_chatbot/static/js/SurvivalModule.js:573-632 | the result renders exactly when the interpretation is a string or falsy and, for a truthy `kaplan_meier`, the timeline is not nullish and every row's time and survival value are numbers |
| Survival.KmRow | dino_chatbot/static/js/SurvivalModule.js:629-630 | both numbers of table row i are numbers, so both `toFixed` calls succeed |
| Survival.RowFault | dino_chatbot/static/js/SurvivalModule.js:620-633 | a row throws exactly when its time or its survival value is not a number; the time is formatted first |
| Survival.RowsFaultNone | dino_chatbot/static/js/SurvivalModule.js:620-633 | the rows from a start index on throw nothing exactly when each of them formats |
| Survival.NumberInterpretationFails | dino_chatbot/static/js/SurvivalModule.js:579 | an answer whose interpretation is the number 5 ends in the `replace` TypeError |
| Survival.KaplanMeierWithoutTimelineFails | dino_chatbot/static/js/SurvivalModule.js:620 | an answer whose `kaplan_meier` has no timeline ends in the TypeError of reading `length` of undefined |
| Survival.WithoutLoader | dino_chatbot/static/js/SurvivalModule.js:163-165 | `hideLoadingIndicator` removes the first loader, if any, and nothing else |
| Survival.PageBreak | dino_chatbot/static/js/SurvivalModule.js:424-430 | the cursor is kept when the block fits above the 20-unit bottom margin; otherwise a page is added and the cursor reset to 20 |
| Survival.PageBreakFits | dino_chatbot/static/js/SurvivalModule.js:424-430 | after the check, a block that fits on an empty page fits below the cursor |
| Survival.Decide | dino_chatbot/static/js/SurvivalModule.js:20-55 | the click's decision: header snapshot on the first click only; event_status before time_to_event is refused with its entry set false; otherwise the entry takes the box's state, the click is refused when neither of the two is selected (without reverting the entry), and the payload is posted iff it is non-empty |
| Survival.Blocked | dino_chatbot/static/js/SurvivalModule.js:29 | event_status is clicked while time_to_event is not selected |
| Survival.Neither | dino_chatbot/static/js/SurvivalModule.js:39 | neither time_to_event nor event_status is selected |
| Survival.Decision | dino_chatbot/static/js/SurvivalModule.js:20-55 | the decision a click must reach: snapshot on the first click, event_status before time_to_event refused with its entry set false, otherwise the new state recorded, a refusal when neither survival variable is selected, and a post exactly when the payload is non-empty |
| Survival.SurvivalPanel.constructor | dino_chatbot/static/js/SurvivalModule.js:6-7 | empty selection map and snapshot, no list, no output |
| Survival.SurvivalPanel.Open | dino_chatbot/static/js/SurvivalModule.js:9-18 | the output is emptied and the list rebuilt unchecked; the selection map and the snapshot are kept |
| Survival.SurvivalPanel.Toggle | dino_chatbot/static/js/SurvivalModule.js:20-55 | the new state follows the decision: a refused click unchecks the box and adds its warning; otherwise the box flips, prior output is cleared, and a loader appears iff a request is sent |
| Survival.SurvivalPanel.OnReply | dino_chatbot/static/js/SurvivalModule.js:103-114 | the loader goes; a failure, a rendering that throws included, replaces the output with the friendly message; results that render append an item showing the first strict AIC minimum, or none when no AIC compares |
| Survival.RequestCarriesTimeOrStatus | dino_chatbot/static/js/SurvivalModule.js:39-45 | when both columns are in the snapshot, a request always carries time_to_event or event_status |
| Survival.StatusOnlyAfterUncheckingTime | dino_chatbot/static/js/SurvivalModule.js:29-45 | once time_to_event is unchecked, event_status alone passes the guard and is sent without any time column |
| Ranking.Criterion | dino_chatbot/static/js/SurvivalModule.js:536 | `result.aic` as the comparison sees it: a number, null (which converts to 0), and any other value as never below anything (see Left out) |
| Ranking.Criteria | dino_chatbot/static/js/EstimationModule.js:243-253 | the criterion of every entry, in object order |
| Ranking.ScanStep | dino_chatbot/static/js/SurvivalModule.js:535-540 | one step of the scan keeps "the first strict minimum so far" |
| Ranking.ScanDone | dino_chatbot/static/js/SurvivalModule.js:535-540 | after the last entry the running best is the first minimum of all entries, or none when no entry compares |
| Ranking.FirstMinimum | dino_chatbot/static/js/SurvivalModule.js:533-540 | the loop from `Infinity` returns the first entry strictly below all earlier ones and no greater than any, or none iff no entry compares |
| Survival.ShowsBest | dino_chatbot/static/js/SurvivalModule.js:533-540 | the shown distribution is none exactly when no AIC is comparable, and otherwise the key of the first strict minimum |
| Ranking.FirstMinUnique | dino_chatbot/static/js/EstimationModule.js:243-253 | the first minimum is unique |
| Ranking.NullBeatsPositive | dino_chatbot/static/js/SurvivalModule.js:536 | a null AIC compares as 0, so a failed fit is chosen over fits whose criteria are all positive |
| Estimation.FriendlyError | dino_chatbot/static/js/EstimationModule.js:108-120 | the first table key contained in the message picks the friendly text; an empty message becomes "An unknown error occurred" |
| Estimation.ExhaustedQuotaKeyNeverWins | dino_chatbot/static/js/EstimationModule.js:109-118 | "insufficient_quota" contains "quota", which is tried first, so the exhausted-plan text is never shown |
| Estimation.Settle | dino_chatbot/static/js/EstimationModule.js:63-106 | a rejected fetch or non-2xx status fails with the error text or the status table's text; a body error fails; otherwise the comparison runs on the non-empty results, which all have to be non-null objects, or is skipped |
| Estimation.EmptyResultsSkipComparison | dino_chatbot/static/js/EstimationModule.js:205 | a successful reply without `all_distributions_results` gives a report with no comparison |
| Estimation.Scored | dino_chatbot/static/js/EstimationModule.js:328-361 | a score card renders: its score is nullish, shown as "N/A", or a number |
| Estimation.ScoreFault | dino_chatbot/static/js/EstimationModule.js:328-361 | the score cards throw exactly when the AIC or the BIC is neither nullish nor a number, and the AIC card throws first |
| Estimation.StringAicFails | dino_chatbot/static/js/EstimationModule.js:333 | a reply whose `aic` is the string "5" skips the comparison and throws at the AIC card |
| Estimation.BestByAicAndBic | dino_chatbot/static/js/EstimationModule.js:237-253 | the single forEach finds, independently, the first strict minimum of the AICs and of the BICs, and nothing exactly when no value compares below Infinity |
| Estimation.NullBestAt | dino_chatbot/static/js/EstimationModule.js:241-268 | for a best index that is the first strict minimum, or none exactly when nothing compares, "some first minimum of the criterion is null" holds exactly when the best index exists and its value is null |
| Estimation.ChosenFor | dino_chatbot/static/js/EstimationModule.js:237-253 | the best name for a criterion is none exactly when no value is comparable, and otherwise the key of its first strict minimum, whose value is not null |
| Estimation.VerdictOf | dino_chatbot/static/js/EstimationModule.js:270-297 | the consensus card appears iff the two best names are equal, the disagreement note iff they differ |
| Estimation.NoValuesIsConsensus | dino_chatbot/static/js/EstimationModule.js:262-276 | with no comparable values both bests are null and the page reports a consensus |
| Estimation.WithoutLoader | dino_chatbot/static/js/EstimationModule.js:152-154 | hiding the loader removes exactly one element when a loader is present and nothing otherwise |
| Estimation.EstimationPanel.constructor | dino_chatbot/static/js/EstimationModule.js:4-7 | the panel starts with no selection, no header snapshot and an empty output |
| Estimation.EstimationPanel.Open | dino_chatbot/static/js/EstimationModule.js:9-24 | opening empties the output and lists the header row's variables unchecked; the selection map and the snapshot survive |
| Estimation.EstimationPanel.Toggle | dino_chatbot/static/js/EstimationModule.js:26-61 | a click records the box in the selection map without any order rule, snapshots the headers once, clears earlier results, and posts exactly when the prepared payload is non-empty, with the loader as the only output |
| Estimation.EstimationPanel.OnReply | dino_chatbot/static/js/EstimationModule.js:74-87 | a failed reply replaces the output with the friendly error; for a good one the output is exactly the toFixed error when a best value is null (`NullBest`), else the error of the first score card whose score is neither nullish nor a number, else the old output without its loader followed by one report whose verdict names each criterion's first minimum |
| Estimation.CompareItem | dino_chatbot/static/js/EstimationModule.js:236-300 | the comparison block is the error that `toFixed` on null raises exactly when the first strict minimum of the AICs or of the BICs is null; otherwise it is a report whose verdict names, for each criterion, that first minimum |
| Estimation.ChosenFrom | dino_chatbot/static/js/EstimationModule.js:242-253 | the index the scan returns names the chosen distribution, and none is chosen iff no value compares |
| Estimation.CardsHeight | dino_chatbot/static/js/EstimationModule.js:463-483 | the cards take non-negative space, 15 for each card that has both a label and a value |
| Estimation.NotesHeight | dino_chatbot/static/js/EstimationModule.js:486-499 | the notes take non-negative space, five per line plus five for each note with text |
| Estimation.SectionHeight | dino_chatbot/static/js/EstimationModule.js:452-501 | a section always takes at least the trailing 10 |
| Estimation.FirstY | dino_chatbot/static/js/EstimationModule.js:440 | the cursor starts 15 below the table, or at 60 when no table was drawn or that sum is 0 |
| Estimation.SectionStart | dino_chatbot/static/js/EstimationModule.js:447-450 | a section never starts below 250: past 250 it moves to 20 on a new page, else it stays |
| Estimation.Layout | dino_chatbot/static/js/EstimationModule.js:445-502 | the section loop gives one start per section |
| Estimation.PlaceSections | dino_chatbot/static/js/EstimationModule.js:440-502 | the loop places every section, counts the pages it adds and ends at the cursor that the layout function gives |
| Estimation.LayoutBounds | dino_chatbot/static/js/EstimationModule.js:445-450 | every section but a first one at the initial cursor starts between 20 and 250, at most one page is added per section, and the cursor stays at or above 20 |
| Estimation.LayoutBreaks | dino_chatbot/static/js/EstimationModule.js:447-450 | a later section starts at 20 exactly when the cursor after the previous one is past 250, and otherwise at that cursor |
| Estimation.LayoutPrefix | dino_chatbot/static/js/EstimationModule.js:445-502 | laying out the first n sections gives the first n starts of the whole layout |
| Legacy.Unchecked | dino_chatbot/static/js/tes.js:140-157 | a rebuilt list has one box per entry, in order, all unchecked |
| Legacy.FirstBox | dino_chatbot/static/js/tes.js:115 | once the selector has parsed to a value, it finds the first box whose `data-variable` is that value, or none; no earlier box has it |
| Legacy.FirstBoxAppend | dino_chatbot/static/js/tes.js:115 | across two lists in document order the selector finds the first list's box if it has one, else the second list's, offset |
| Legacy.UncheckAtAppend | dino_chatbot/static/js/tes.js:117-118 | unchecking a box of a concatenated list unchecks it in exactly the part that holds it |
| Legacy.UncheckFirstSpec | dino_chatbot/static/js/tes.js:115-118 | on the whole page exactly the first box whose `data-variable` is the value is unchecked, whichever panel's list holds it, and every other box keeps its state |
| Legacy.UncheckFirst | dino_chatbot/static/js/tes.js:115-118 | `checkbox.checked = false` on the box the selector finds, searching the descriptive, survival and estimation lists in that order; UncheckFirstSpec states the result |
| Legacy.RemoveFirst | dino_chatbot/static/js/tes.js:681-685 | `removeStatistics` drops the first statistics block, whatever its variable; nothing when there is none |
| Legacy.AfterChangeStep | dino_chatbot/static/js/tes.js:112-119 | one change: a selector that does not parse throws with its message and changes nothing; otherwise a checked box found for the value is unchecked and the first block goes |
| Legacy.CellText | dino_chatbot/static/js/tes.js:113-114 | the header cell as spliced into the selector: a string as itself, null and undefined by name, a number as printed |
| Legacy.AfterChanges | dino_chatbot/static/js/tes.js:110-122 | the changes in order, the first thrown error ending the `forEach` |
| Legacy.AfterChangesThrows | dino_chatbot/static/js/tes.js:110-122 | the hook ends with an error exactly when some changed header's selector does not parse, and the error is that of the first such change |
| Legacy.FirstThrow | dino_chatbot/static/js/tes.js:111-114 | the first changed column whose header's selector does not parse, with none before it, or none at all |
| Legacy.ThrowStopsHook | dino_chatbot/static/js/tes.js:110-122 | once a change has thrown, later changes are never looked at |
| Legacy.AfterChangesRemoves | dino_chatbot/static/js/tes.js:110-122 | the afterChange hook never adds a statistics block and removes at most one per changed cell, always from the front |
| Legacy.RemovesAnotherVariablesBlock | dino_chatbot/static/js/tes.js:681-685 | `removeStatistics` ignores its argument: when the box for a name is checked and the first block shows another variable, that block goes and the block for the name stays |
| Legacy.Edited | dino_chatbot/static/js/tes.js:110-114 | the grid after typed edits keeps its shape, cells not edited keep their value and the last edit's cell holds its value |
| Legacy.ChangedColumns | dino_chatbot/static/js/tes.js:113 | the column of each change, in order |
| Legacy.RenamedHeaderReadsNewName | dino_chatbot/static/js/tes.js:113-118 | typing a new header runs the hook on the new name: the old name's box stays checked and its block stays |
| Legacy.SurvivalClick | dino_chatbot/static/js/tes.js:345-402 | the survival handler snapshots the headers once, refuses event_status before time_to_event and records false, otherwise records the box and refuses when neither survival variable is selected, and else posts the payload, even an empty one |
| Legacy.Decided | dino_chatbot/static/js/tes.js:345-402 | the survival decision: snapshot on the first click, event_status before time_to_event refused and recorded false, else the box recorded, a refusal when neither survival variable is selected, else a post of the payload |
| Legacy.Usable | dino_chatbot/static/js/tes.js:199-205 | a reply callback renders only an answer with a body and without a truthy `error`, whatever the status |
| Legacy.SurvivalRenders | dino_chatbot/static/js/tes.js:459-489 | `generateAPIResponse` reaches its `appendChild` unless a truthy `kaplan_meier` has a nullish timeline, or a nullish survival function while the timeline has rows |
| Legacy.KaplanMeierWithoutTimelineNotShown | dino_chatbot/static/js/tes.js:481 | a `kaplan_meier` without a timeline throws at `timeline.length`, so nothing is shown |
| Legacy.StatsRender | dino_chatbot/static/js/tes.js:266-281 | `displayStatistics` completes unless a categorical result has no `categoryCount` |
| Legacy.EstimationRenders | dino_chatbot/static/js/tes.js:605-678 | `generateEstimasiResponse` reaches its `appendChild`: results present, every row formattable, and `params` not null |
| Legacy.EstimationClick | dino_chatbot/static/js/tes.js:542-583 | the estimation handler records the box with no order rule in the shared map and posts exactly when the payload is non-empty |
| Legacy.Page.constructor | dino_chatbot/static/js/tes.js:1-27 | page load: the grid holds the initial rows in its shape, nothing is selected, no list, block, alert or snapshot exists |
| Legacy.Page.OpenMenu | dino_chatbot/static/js/tes.js:36-59 | a menu item shows only its container, empties its output and rebuilds its list unchecked from the current header row; the shared map and snapshot are kept |
| Legacy.Page.Blanked | dino_chatbot/static/js/tes.js:63-66 | the rendered blank grid has the old grid's size and only empty cells |
| Legacy.Page.Clear | dino_chatbot/static/js/tes.js:62-79 | the clear button blanks the grid in place, drops the descriptive output and list, and hides all containers, but leaves the shared selection and snapshot and the other outputs |
| Legacy.Page.Export | dino_chatbot/static/js/tes.js:81-87 | the export writes the whole grid, header row included, to "data.xlsx" on "Sheet1" with no emptiness check |
| Legacy.Page.Import | dino_chatbot/static/js/tes.js:90-107 | with a file whose sheet is read, the grid becomes the first sheet's rows; otherwise nothing changes |
| Legacy.Page.AfterChange | dino_chatbot/static/js/tes.js:110-122 | with changes, the lists and blocks become what the column-by-column hook gives for the current header row, stopping at a thrown error; nothing else changes |
| Legacy.Page.RunHook | dino_chatbot/static/js/tes.js:111-120 | the `forEach` loop ends with exactly the hook the column-by-column specification gives |
| Legacy.Page.EditCells | dino_chatbot/static/js/tes.js:110-122 | the grid takes the edits, then the hook runs on the edited header row over the edited columns; nothing else changes |
| Legacy.Page.ToggleDescriptive | dino_chatbot/static/js/tes.js:176-212 | checking sends the column's truthy cells and whether the first is numeric; unchecking removes the first statistics block, whichever variable it shows |
| Legacy.Page.DescriptiveReply | dino_chatbot/static/js/tes.js:200-211 | a usable reply whose block renders appends a block for the name, even a second one; otherwise nothing is shown |
| Legacy.Page.ToggleSurvival | dino_chatbot/static/js/tes.js:345-402 | a refused click unchecks the box and raises its alert; a posted one flips the box and drops the first survival block |
| Legacy.Page.SurvivalReply | dino_chatbot/static/js/tes.js:410-421 | a usable reply whose table renders is shown after the existing survival blocks; an error body or a rendering that throws shows nothing |
| Legacy.Page.ToggleEstimation | dino_chatbot/static/js/tes.js:542-583 | the click flips the box, records it in the shared map, drops the first estimation block and posts exactly when the payload is non-empty |
| Legacy.Page.EstimationReply | dino_chatbot/static/js/tes.js:592-603 | a usable reply whose tables render is shown after the existing estimation blocks |
| Legacy.EstimationChoiceEntersSurvival | dino_chatbot/static/js/tes.js:340-372 | the map is shared: a variable checked in the estimation panel is sent with the next survival request for another variable |
| Legacy.EmptySurvivalPayloadPasses | dino_chatbot/static/js/tes.js:383-404 | with time_to_event selected but absent from the snapshot, the guard passes and an empty payload is posted |
| Legacy.ClearKeepsSelection | dino_chatbot/static/js/tes.js:62-79 | clearing leaves the shared map, so a later request still carries every selected variable the snapshot has |
| BackendUtils.Cleaned | view/utils.py:62-63 | the comprehension filter keeps no `None` and no "" and never lengthens the list |
| BackendUtils.CleanedAppend | view/utils.py:62-63 | cleaning distributes over concatenation, so the kept entries stay in input order |
| BackendUtils.CleanedKeepsClean | view/utils.py:62-63 | a list with no `None` or "" passes through unchanged |
| BackendUtils.CleanedIdempotent | view/utils.py:62-63 | cleaning twice is cleaning once |
| BackendUtils.CleanedFromInput | view/utils.py:62-63 | every kept entry comes from the input |
| BackendUtils.FloatAll | view/utils.py:62 | `float` over the list succeeds iff every entry converts, and then each result is its entry's conversion |
| BackendUtils.IntAll | view/utils.py:63 | `int` over the list succeeds iff every entry converts, and then each result is its entry's conversion |
| BackendUtils.ParseData | view/utils.py:54-65 | a body that is not a dict fails with AttributeError on `get`; non-list fields raise the ValueError; otherwise the two results are the converted cleaned fields, each no longer than its field, with an absent field read as empty |
| BackendUtils.MissingFieldsAreEmpty | view/utils.py:55-56 | a body without either field parses to two empty lists |
| BackendUtils.FormatNumber | view/utils.py:46-51 | floats are rounded, ints (and bools, as ints) kept, lists mapped element by element at the same length, other values returned unchanged |
| BackendUtils.FormatNumberIdempotent | view/utils.py:46-51 | with an idempotent rounding, formatting a formatted value changes nothing at any depth |
| PyValue.Get | view/utils.py:55-56 | `get` succeeds exactly on a dict and returns the default for a missing key; anything else raises AttributeError |
| PyValue.ToFloat | view/utils.py:62 | `float` converts numbers and booleans, and strings that parse; it fails exactly on unparsable strings, `None`, lists and dicts |
| PyValue.Truncate | view/utils.py:63 | `int` of a float rounds toward zero on both sides of 0 |
| PyValue.ToInt | view/utils.py:63 | `int` keeps ints, truncates floats, maps booleans to 0/1 and fails exactly on unparsable strings, `None`, lists and dicts |
| PyValue.Iterate | dino_chatbot/views.py:129-132 | iterating a list yields its items, a string one item per character, a dict one per key, and a scalar raises TypeError |
| PyValue.MinusTwice | view/distributions.py:143-148 | `c - 2*ll` is finite iff `ll` is, and swaps the two infinities |
| PyValue.LessTotal | view/helper.py:43-47 | float `<` is a strict total order once NaN is excluded |
| PyValue.LessTransitive | view/helper.py:43-47 | float `<` is transitive |
| Distributions.FitDistribution | view/distributions.py:53-117 | an unknown name is rejected before fitting; a successful fit is for a configured name, with finite parameters and a finite log-likelihood |
| Distributions.MinOf | view/distributions.py:30 | `np.min` returns an element of the list that no element is below |
| Distributions.ParetoLogLikelihood | view/distributions.py:140-159 | the value is minus infinity for a non-positive scale or shape or a time below the scale, and otherwise the closed-form formula |
| Distributions.ParetoAtMinimum | view/distributions.py:27-38 | with the scale at the smallest time the below-scale guard never fires: the result is minus infinity exactly when the shape is at most 0, or at most 1e-10 without event status |
| Distributions.Criteria | view/distributions.py:43-45 | a finite log-likelihood gives AIC 2k - 2 ll and BIC k ln n - 2 ll; minus infinity gives two infinite criteria |
| Distributions.CriteriaMeaning | view/distributions.py:43-45 | with equal parameter counts a lower AIC means a higher likelihood, and BIC exceeds AIC by k (ln n - 2) |
| Distributions.CalculateAic | view/distributions.py:7-50 | empty, non-positive, mismatched or non-0/1 input raises its own message in that order; a result always comes from valid input, and is the Pareto closed form at the smallest time or the numerical fit, with criteria from the parameter count and ln n |
| Distributions.ParetoIsNotFitted | view/distributions.py:60-89 | "pareto" has no numerical configuration, so only the closed-form branch can estimate it |
| Distributions.GoodnessOfFit | view/distributions.py:191-209 | the KS test runs exactly for the six known names |
| Distributions.CalculateKaplanMeier | view/distributions.py:211-228 | no fit exactly for no data; without event status every time counts as an observed event |
| Distributions.CalculateMedianSurvival | view/distributions.py:238-242 | a median exactly when there is a fit, and then the fit's median |
| Helper.AicOf | view/helper.py:44 | `result.get('aic')` is a value exactly for an evaluated entry; empty-data and failed entries have none |
| Helper.Evaluate | view/helper.py:9-34 | without times the entry is the empty-data error; it is evaluated exactly when the estimate succeeds and the test knows the name, and then carries the estimate's criteria and parameters and the KS statistic and p-value |
| Helper.Evaluations | view/helper.py:7-36 | the dictionary the loop builds is always well formed |
| Helper.EvaluationsSpec | view/helper.py:5-36 | the result has an entry exactly for each requested name, each computed on its own, so one failure leaves the others unaffected |
| Helper.EvaluationsOrder | view/helper.py:8 | with distinct names the entries come in the order requested |
| Helper.NoTimesNoFits | view/helper.py:10-12 | without times every requested name maps to the empty-data error |
| Helper.EvaluateAllDistributions | view/helper.py:5-36 | the loop builds exactly the dictionary the specification gives |
| Helper.BestOf | view/helper.py:41-46 | the running best index is always among the entries scanned |
| Helper.BestOfSpec | view/helper.py:41-47 | the scan from `inf` returns nothing and `inf` exactly when no AIC is present and finite, and otherwise the first entry with the smallest AIC and that AIC |
| Helper.Aics | view/helper.py:43-44 | the AICs read from the entries in dictionary order |
| Helper.FindBestDistribution | view/helper.py:39-47 | the loop over the items ends with the name and minimum the scan specifies |
| Helper.BestDistributionSpec | view/helper.py:39-47 | no eligible entry gives `(None, inf)`; otherwise the name is the first with the smallest AIC, an evaluated entry, and `min_aic` is its AIC |
| Helper.BestDistribution | view/helper.py:39-47 | the name and AIC the scan ends with; BestDistributionSpec states what they are |
| Helper.GenerateVisualizations | view/helper.py:50-78 | without times all five entries are empty; otherwise the hazard, Kaplan-Meier, comparison and survival plots in that order, the first failure ending the call; `distribusi_plot` is always empty |
| Helper.GenerateVisualizationsSpec | view/helper.py:50-78 | with times, a status of another length fails with numpy's IndexError; no best distribution always fails (the hazard ValueError when some time is an event, else the title's AttributeError); a plotted best gives the three curves and the hazard plot exactly when some time is an event |
| Helper.UnsupportedError | view/plotting.py:49-50 | the ValueError "Unsupported distribution: " with the name, or None |
| Helper.MaskError | view/plotting.py:25 | numpy's IndexError for a boolean mask of another length than the times |
| Helper.HasEvent | view/plotting.py:20-25 | some time is an event: every time when no status is passed, else a status equal to 1 |
| Helper.Masked | view/plotting.py:25 | the event times are among the times, no more of them, and none exactly when no status is 1 |
| Helper.EventTimes | view/plotting.py:19-28 | numpy's IndexError exactly for a status of another length; otherwise some event time exactly when some time is an event |
| Helper.CreateHazardPlot | view/plotting.py:8-71 | no figure without times or event times; a mismatched status fails with the IndexError; a name without a formula fails with the ValueError once some time is an event |
| Helper.CreateKaplanMeierPlot | view/plotting.py:73-106 | no figure without times; otherwise it fails exactly on a missing name, when the title capitalizes None |
| Helper.CreateSurvivalPlot | view/plotting.py:108-257 | no figure without times; otherwise the ValueError exactly for a name without a survival formula, else the figure |
| Helper.CalculateSurvivalMetrics | view/helper.py:81-92 | without times both are empty; otherwise the Kaplan-Meier fit of the times and its median |
| Helper.GenerateInterpretation | view/helper.py:95-122 | an interpretation is asked for exactly when there is a Kaplan-Meier fit, and the prompt carries the fit, the best distribution, its parameters, the median survival and the goodness-of-fit text |
| DescriptiveStats.DistinctSize | view/descriptive_stats.py:11 | `len(set(xs)) == len(xs)` holds exactly when no value repeats, and the set is never larger than the list |
| DescriptiveStats.ModeScan | view/descriptive_stats.py:11 | the scan's candidate is always among the positions scanned |
| DescriptiveStats.ModeScanSpec | view/descriptive_stats.py:11 | the scan ends at a position whose value occurs at least as often as any scanned one and strictly more often than every earlier one |
| DescriptiveStats.Mode | view/descriptive_stats.py:11 | `statistics.mode` returns a value of the data that occurs at least as often as any other |
| DescriptiveStats.ModeFirst | view/descriptive_stats.py:11 | among equally common values the mode is met first |
| DescriptiveStats.Min | view/descriptive_stats.py:15 | `min` is an element no element is below |
| DescriptiveStats.Max | view/descriptive_stats.py:16 | `max` is an element no element exceeds |
| DescriptiveStats.NumericStatistics | view/descriptive_stats.py:5-21 | nothing exactly for no data; the mode exactly when a value repeats; std from 2 values, skewness from 3, kurtosis from 4; count and uniqueCount are the numbers of values and distinct values; min, max and range are the rounded extremes |
| DescriptiveStats.FirstMostCommon | view/descriptive_stats.py:30 | `max(..., key=...)` returns a category whose count no other category's exceeds |
| DescriptiveStats.CategoricalStatistics | view/descriptive_stats.py:25-33 | nothing exactly for no data; one count per distinct category, equal to its number of occurrences; uniqueCount is the number of categories; the mode is a most common value of the data |
| DescriptiveStats.SumCountsSnoc | view/descriptive_stats.py:28 | one more value adds one to the counts exactly when its category is listed |
| DescriptiveStats.SumCountsCovers | view/descriptive_stats.py:28 | counting over distinct categories that cover the data counts every value once |
| DescriptiveStats.SumCountsEmpty | view/descriptive_stats.py:28 | no values give zero counts |
| DescriptiveStats.OnceInDistinct | view/descriptive_stats.py:28 | a category of the set is listed once |
| DescriptiveStats.CountsAddUp | view/descriptive_stats.py:28 | the category counts add up to the number of values |
| DescriptiveStats.ProcessStatistics | view/descriptive_stats.py:35-50 | unpacking the summary of no data raises the TypeError, for both kinds, and only then |
| DescriptiveStats.ProcessStatisticsTags | view/descriptive_stats.py:36-50 | a numeric body is tagged "Numeric", holds the count and has no bar chart; a categorical one is tagged "Categorical", holds the number of categories and has no box plot |
| LlmHandlers.GenerateMessage | view/llm_handlers.py:5-22 | exactly one branch by which lists are non-empty: the full prompt for both, the prompt without event status for times alone, the notice for event status alone, and the ValueError exactly when both are empty |
| LlmHandlers.FullPrompt | view/llm_handlers.py:6-10 | the prompt for times with event status: the instructions, the times, the status and the four summary values |
| LlmHandlers.TimesPrompt | view/llm_handlers.py:11-15 | the prompt for times alone: the same text without the status segment (PromptsDifferByStatus) |
| LlmHandlers.StatusNotice | view/llm_handlers.py:16-20 | the notice for event status alone, around the printed status list (NoticeCarriesStatus) |
| LlmHandlers.PromptsDifferByStatus | view/llm_handlers.py:6-15 | the prompt with event status is the one without it with the status segment inserted between the times and the summary statistics |
| LlmHandlers.PromptsShareIntro | view/llm_handlers.py:8-13 | both time-based prompts open with the same instructions |
| LlmHandlers.FullPromptCarriesStatus | view/llm_handlers.py:8 | the full prompt contains the printed status list |
| LlmHandlers.NoticeCarriesStatus | view/llm_handlers.py:18-19 | the status-only notice contains the printed status list |
| LlmHandlers.Lower | view/llm_handlers.py:29 | lowercasing keeps the length and maps exactly the capital letters A-Z to their small letters |
| LlmHandlers.MatchAt | view/llm_handlers.py:28-29 | at one offset the alternation answers the first alternative that occurs there, or none exactly when none occurs |
| LlmHandlers.Search | view/llm_handlers.py:28-29 | `re.search` finds the leftmost offset at which some alternative occurs, with an alternative occurring there, and nothing exactly when no alternative occurs anywhere |
| LlmHandlers.HandlePredictions | view/llm_handlers.py:27-58 | no candidate in the lowercased answer gives the not-found tuple; otherwise the message is the name found, nothing is estimated without times, a failed `calculate_aic` gives its error text, a successful one followed by a successful goodness-of-fit test gives its AIC, BIC and parameters with the "Uji Kolmogorov-Smirnov" text of the test, and a failed test gives no scores and the processing error with the test's message |
| LlmHandlers.EstimateSucceedsWithTest | view/llm_handlers.py:38-50 | every candidate name has a goodness-of-fit test, so when `calculate_aic` succeeds the prediction carries its AIC, BIC and parameters and the KS statistic and p-value of the test, each with four decimals |
| LlmHandlers.EstimateErrorReported | view/llm_handlers.py:53-56 | a failed estimate is returned, not raised: the name stays, the three estimates are empty and the text carries the error |
| LlmHandlers.CaseDoesNotMatter | view/llm_handlers.py:29 | the answer is read without regard to case |
| Views.Prompt | dino_chatbot/views.py:33-36 | mean and stdev run before `generate_message`, so the prompt fails exactly for fewer than two times, with the StatisticsError of the mean for none and of the stdev for one, both caught as ValueError |
| Views.PromptHasTimes | dino_chatbot/views.py:33-34 | inside the view `generate_message` never raises and never builds the status-only notice: from two times on, the full prompt with event status and the times-only prompt without |
| Views.BestParams | dino_chatbot/views.py:59 | `best_params` are the parameters of the evaluated best entry when there is one, else the prediction's parameters |
| Views.Analyze | dino_chatbot/views.py:38-84 | the analysis fails exactly when drawing the figures fails, with that error; otherwise it asks the model with the prompt, evaluates the six distributions in order, takes the first smallest-AIC entry and its parameters (else the prediction's), draws the figures and the Kaplan-Meier fit of the data, and asks for the interpretation of the fit with the best distribution, its parameters, the median and the goodness-of-fit text |
| Views.Report | dino_chatbot/views.py:87-104 | the report always has the sixteen keys, in order |
| Views.GetSurvival | dino_chatbot/views.py:22-111 | 405 exactly for a method other than POST, 400 for malformed JSON, 500 only with an error body (an analysis failure gives its message), 200 only with a warning or a report, and no other status |
| Views.GetSurvivalOutcome | dino_chatbot/views.py:26-111 | after the JSON is read, a `parse_data` error is a 500 with its message, no times or one time a 200 warning, and from two times on a failed analysis is a 500 with its message and a successful one the report with its fixed keys |
| Views.NoBestIsServerError | dino_chatbot/views.py:57-111 | when no distribution gets an AIC and the lengths match, the plots raise and the answer is a 500 with an error body |
| Views.MismatchedStatusIsServerError | dino_chatbot/views.py:62-111 | a non-empty status list of another length than the times gives the 500 with numpy's mask IndexError message |
| Views.NonObjectIsServerError | dino_chatbot/views.py:27-30 | JSON that is not an object fails on `data.get`, which is a 500 |
| Views.EmptyFieldsWarn | dino_chatbot/tests.py:154-165 | two empty lists give the 200 warning that the mean needs a data point |
| Views.OneTimeWarns | dino_chatbot/tests.py:167-178 | a single time gives the 200 warning that the standard deviation needs two |
| Views.OneTimeParses | view/utils.py:54-65 | `[5]` and `[1]` parse to the times `[5.0]` and the status `[1]` |
| Views.ComparedAreTested | dino_chatbot/views.py:50 | every distribution the view compares has a goodness-of-fit test |
| Views.Present | dino_chatbot/views.py:129-132 | the values other than `None`, in order, unchanged when none is `None` |
| Views.Str | dino_chatbot/views.py:132 | `str` of a string is the string itself |
| Views.ColumnOf | dino_chatbot/views.py:128-132 | a numeric request gives the floats of the values other than `None`, or the first conversion error; a categorical one one string per such value; a scalar `data` raises |
| Views.GetStatistics | dino_chatbot/views.py:115-142 | no response for a method other than POST; 400 for malformed JSON; otherwise only 200 with statistics or 400 with an error |
| Views.GetStatisticsFields | dino_chatbot/views.py:120-125 | a missing or falsy `variable` or `data` gives 400 "Missing required fields", and a 200 needs both |
| Views.OnlyNoneIsRejected | dino_chatbot/views.py:128-142 | a numeric `data` of only `None` values leaves nothing to summarise, and unpacking the empty summary is a 400 |
| Views.NoneDropped | dino_chatbot/views.py:129 | a list of `None` values keeps nothing |

## Left out

- ExportExcel.ExportToExcel: no file of the client calls `exportToExcel`, so the model states what a call would do; the failure notice the `catch` intends is never shown, because `showErrorNotification` is out of scope there.
- Plotting (`view/plotting.py`) and `plot_to_base64`: matplotlib rendering and base64 encoding through libraries. A figure is recorded by the call that would draw it. Only the plotting functions' own guards are modelled (no times, no event time, numpy's mask length check, an unsupported name, `None.capitalize()`). The errors lifelines or numpy raise while fitting or drawing, such as a Kaplan-Meier fit on NaN times or a parameter list too short for a formula, are not modelled.
- Helper.CreateSurvivalPlot: the comparison plot also overlays a Kaplan-Meier fit, and the survival plot fills a confidence band. Neither can fail in the model beyond the unsupported-name ValueError.
- The log-likelihood functions, the L-BFGS-B optimiser, the Pareto shape estimate, `ln`, the Kolmogorov-Smirnov test and the Kaplan-Meier fitter: floating-point library numerics. They are the `Numerics` parameter, and the log-likelihood is an opaque value.
- `ask_openai` and `ask_openai_gpt`: network clients. Their answers are the `ask` and `interpret` parameters. The text of the interpretation prompt is not built: `interpret` receives the five values it is built from.
- fetch, Promise and FileReader plumbing: asynchronous. Each click handler and each reply callback is one atomic step that takes the reply as an input, so out-of-order replies are not modelled.
- SheetJS reading and writing (Office Open XML): a foreign library. An export is the rows handed to it, an import the rows it returns, and the export/import round trip is not stated.
- jsPDF, autoTable and html2canvas drawing, HTML templates, styling, SweetAlert and `alert` dialogs: presentation. Only the PDF cursor arithmetic, the blocks present and the alert texts are kept.
- The 300 ms fade before a descriptive block is removed: a timer. The removal is immediate.
- `formatStatValue`, `toFixed`, `toExponential`, `format_number`'s `round`, mean, median, standard deviation, skewness and kurtosis values: floating-point formatting and arithmetic. They are function parameters (`round2`, `fmt`, `Moments`, `summary`).
- `cleanInterpretation` (dino_chatbot/static/js/SurvivalModule.js:485-507): a presentation-only chain of regular-expression replacements. Only its TypeError on a truthy interpretation that is no string is modelled; the text itself is not.
- `TableModule.js`, `Statistic.js`, `view/constants.py` and `dino_chatbot/urls.py`: grid construction, module wiring, constants and routing. The default dataset is not part of this model.
- `dino_chatbot/tests.py` is not a model target. Its assertions are proved as lemmas about `Views`.
- Legacy.Page.constructor: the initial grid is a parameter; `tes.js` starts with eleven rows of four empty strings.
- The document order of the three analysis containers and of their variable lists is fixed as descriptive, survival, estimation.
- A `tes.js` reply callback that throws while rendering shows nothing. The throws are those that `StatsRender`, `SurvivalRenders` and `EstimationRenders` name.
- Chat.ChatPage.ShowTypingEffect: each typing effect runs to its last word in one step. Interleaving with a second message while a timer runs is not modelled.
- LlmHandlers.Lower: `str.lower()` maps only the ASCII capital letters. Other Unicode case mappings are left out.
- PyValue.ToFloat: the parsers behind `float(s)` and `int(s)` are parameters. The spellings `inf` and `nan` get no special treatment.
- Python's `repr` quoting in error messages and `str()` of non-string values are the `show` parameter.
- DescriptiveStats.CategoricalStatistics: the iteration order of `set(data_values)` depends on string hashing. It is an input (`orderOf`), constrained only to list each distinct value once.
- LlmHandlers.HandlePredictions: the branch for parameters that are `None` after a successful `calculate_aic` is unreachable and not modelled. A result without parameters is always an exception.
- The serialisation of `JsonResponse` bodies is not modelled. Bodies are kept as structured values.
- JavaScript `for...in` and `Object.entries` list integer-like keys first, in numeric order. The model keeps insertion order for every key.
- Utils.GetCookie: the percent-decoding is an opaque function parameter.
- ExportExcel.CountOf: a count that is neither a number, a boolean nor null is read as 0. JavaScript would concatenate a string count in `sum + count`.
- LlmHandlers.PromptsDifferByStatus: the time-only prompt "does not include the status list" is stated as the status segment not being inserted. The printed time list is opaque and could itself contain the status text.
- Survival.WithoutLoader: each panel's output is modelled on its own. In the page, `hideLoadingIndicator` (dino_chatbot/static/js/SurvivalModule.js:164) removes the document's first loader, which may be the estimation panel's.
- Survival.SurvivalPanel.Toggle: `clearPreviousResults` (dino_chatbot/static/js/SurvivalModule.js:133) removes every error message and loading indicator in the document, the estimation panel's included; the model clears only this panel's output.
- Survival.SurvivalPanel.OnReply: the loader removed is the document's first, possibly the estimation panel's; the model removes this panel's.
- Estimation.WithoutLoader: `hideLoadingIndicator` (dino_chatbot/static/js/EstimationModule.js:153) removes the document's first loader, which may be the survival panel's.
- Estimation.EstimationPanel.Toggle: `clearPreviousResults` (dino_chatbot/static/js/EstimationModule.js:123) removes every error message and loading indicator in the document, the survival panel's included; the model clears only this panel's output.
- Estimation.EstimationPanel.OnReply: the loader removed is the document's first, possibly the survival panel's; the model removes this panel's.
- Selector.Parse: for a name that is not plain, the browser's reading of the selector is the parameter `css`. The model does not compute CSS escapes or where a stray quote ends the string; it states only what follows from an error or from the value read.
- Descriptive.FindBlock: matches `data-variable` against the value the selector parses to (Selector.Parse). A parsed selector that is not a single attribute test (a quote followed by more selector syntax) is not modelled.
- Descriptive.FirstEntryFor: `document.querySelector` in the close handler searches the whole document, the survival and estimation lists included; the model searches only the descriptive list.
- Descriptive.DisplayKeepsOneBlock: one block per name is promised only for names whose selector finds themselves; RedisplayDuplicates states the other case.
- Descriptive.DescriptivePanel.RemoveStatistics: the same selector limits as Descriptive.FindBlock.
- Descriptive.DescriptivePanel.Toggle: the same selector limits as Descriptive.FindBlock.
- Descriptive.DescriptivePanel.OnReply: the same selector limits as Descriptive.FindBlock.
- Descriptive.DescriptivePanel.Close: the same selector limits as Descriptive.FindBlock, and the checkbox search is limited as for Descriptive.FirstEntryFor.
- Legacy.FirstBox: the same selector limits as Descriptive.FindBlock.
- Legacy.UncheckFirstSpec: stated for the value the selector parses to; the same selector limits as Descriptive.FindBlock.
- Ranking.Criterion: a boolean, string or array `aic` is treated as never below anything. Under JavaScript's `<` such a value is converted (true to 1, "5" to 5, [] to 0), can become the running minimum and is then compared raw, two strings by code units. The server sends only numbers or null in that field (view/helper.py:24-34).
- Survival.RenderFault: an object standing for a list (with a numeric `length` field) is read as a timeline without rows (Json.RowCount); the loop at dino_chatbot/static/js/SurvivalModule.js:620 would compare against that field. Engines other than V8 word the TypeErrors differently.
- Legacy.SurvivalRenders: the same reading of an object timeline as without rows, for the loop at dino_chatbot/static/js/tes.js:481.
- Imported cells (the type `Grid.Cell`) are taken to be strings, numbers or empty. SheetJS `sheet_to_json` with `header: 1` gives true or false for a boolean spreadsheet cell; the model cannot express a TRUE header, whose `trim` throws, or a FALSE data cell, which `filter(Boolean)` drops.
