# Season points aggregation of the 2020 Football Season Hub

This project models `TeamStatsProcessor.ProcessTeamStatsAsync` in `Program.cs`, the one piece of logic in the console program.

For each team index 1..32 it does four things:
1. builds a request URL from a fixed query template;
2. fetches and decodes the season's matchup records;
3. credits each record's visiting score to the visiting team code in `teamPoints`;
4. records the first visiting name seen for that code in `teamCodeToName`.

After the loop it sorts the accumulated team codes and emits one (code, name, total) block per code.

Modules, in dependency order:

| module | file | what it holds |
|---|---|---|
| `Wrappers` | `wrappers.dfy` | `Option`. It stands for a C# reference that may be null. |
| `Machine` | `machine.dfy` | The C# `int`: the `Int32` range, `Wrap` to 32-bit two's complement, and unchecked `+=`. |
| `Games` | `games.dfy` | The record shapes the fold reads (`GameStats`, `Game`), plus the visiting/home score selection. |
| `Aggregation` | `aggregation.dfy` | The fold stated on values. `Totals` holds both dictionaries. `Credit` is one foreach iteration, `ApplyGames` the foreach, `AfterResponse` one team's attempt. Includes the closed-form lemmas (sum by key, first writer wins, nothing else changes). |
| `Reporting` | `reporting.dfy` | The sorted team codes (`SortedKeys`), the report of a state (`ReportOf`) and its properties, and the method that orders the codes. |
| `Accumulator` | `accumulator.dfy` | Class `TeamTotals`. It holds the two dictionaries as `map` fields that its methods update in place: one record, one record list, one response, and the report loop. |
| `Requests` | `requests.dfy` | The URL template and `int.ToString()` for non-negative indices. |
| `Processor` | `processor.dfy` | The whole run over team indices 1..32, and season-level lemmas. |

The HTTP GET plus the JSON decode is the parameter `network` of `Processor.ProcessTeamStats`. It maps a request URL to the decoded record list. A URL maps to `None` when any of these happens:
- the GET or the body read throws;
- the decode throws;
- the decoded wrapper is null;
- its `MatchUpStats` list is null.

Each of these ends in the `catch` at Program.cs:165-168 before anything is folded.

The source has two kinds of null dereference inside the foreach:
- A record whose `VisStats` is null throws at Program.cs:136. The loop stops there, and the catch keeps every record already folded: there is no rollback. A null record throws at the same line, so it is modelled as a record with a null visiting side.
- A null `HomeStats` never throws. The home branch at Program.cs:143 is unreachable, because the reference code is the visiting code itself (`Games.HomeBranchDead`).

`teamPoints[teamCode] += score` is unchecked C# addition, and the model wraps it to 32 bits. The closed form is `Wrap(prior + exact sum)`, so a total equals the exact sum whenever the sum fits in an `int`.

Notes on the code's behaviour:
- The program never checks the HTTP status. It decodes whatever body arrives; in the model that body's outcome is just another entry of `network`.
- Only the wrapper shape (`AllGameDataWrapper`) is decoded. A bare JSON array fails to decode, and the attempt for that team index changes nothing.
- A failure partway through a record list keeps the records already folded (`Aggregation.ApplyStopsAtNull`, `Accumulator.TeamTotals.FoldGames`).
- Totals can decrease: a negative score, or a wrap at 2^31, lowers a total.

## Model

| member | source | states |
|---|---|---|
| Machine.Wrap | Program.cs:150 | The result is an `Int32`. It equals the input when the input is in range, and otherwise differs from it by a multiple of 2^32. |
| Machine.AddUnchecked | Program.cs:150 | Unchecked `+=` on `int`: the exact sum when it fits, the sum minus 2^32 on overflow, the sum plus 2^32 on underflow. |
| Machine.WrapAbsorbsWrap | Program.cs:150 | Wrapping after each addition gives the same total as adding exactly and wrapping once at the end. |
| Games.SelectScore | Program.cs:136-146 | The visiting/home branch: the visiting score when the codes match, the home score when only the home code matches, 0 when neither matches. `None` (a NullReferenceException) exactly when the visiting side is null, or the visiting code differs and the home side is null. |
| Games.HomeBranchDead | Program.cs:136-146 | With the reference code taken from the visiting side, the credited score is always the visiting score, whatever the home side is, including null. |
| Aggregation.Credit | Program.cs:136-161 | No contract. Defines one foreach iteration for a record with a visiting side. Its properties are in CreditTouchesOnlyItsCode, ApplyPoints and ApplyNames. |
| Aggregation.ApplyGames | Program.cs:134-162 | No contract. Defines the foreach, which stops at the first null visiting side. Its properties are in ApplyStopsAtNull, ApplyPoints, ApplyNames and ApplyKeepsOtherCodes. |
| Aggregation.AfterResponse | Program.cs:125-168 | No contract. Defines one team index's attempt: a failure or an empty list leaves the state as it was, and otherwise the list is folded. Its properties are in ResponseEffect. |
| Aggregation.CreditTouchesOnlyItsCode | Program.cs:148-161 | Folding one record adds its visiting code to both dictionaries' keys and leaves every other entry of both unchanged. |
| Aggregation.Folded | Program.cs:134-136 | The records the foreach completes: a prefix of the list whose records all have a visiting side, and the record right after it (if any) has a null visiting side. |
| Aggregation.FirstName | Program.cs:158-161 | The first visiting name for a code is defined exactly when some record is visited by that code. |
| Aggregation.ApplyStopsAtNull | Program.cs:132-168 | Folding a list has the same effect as folding only its completed prefix: a null visiting side stops the fold and nothing folded before it is undone. |
| Aggregation.ApplyAppend | Program.cs:134-162 | Folding one more record after a completed list is one more `Credit` step on the state that list reached. |
| Aggregation.ApplyPoints | Program.cs:134-155 | Sum by key. After the fold, code c has a total exactly when it had one before or a folded record is visited by c. That total is the prior total (0 if absent) plus the sum of c's folded visiting scores, reduced to 32 bits. |
| Aggregation.ApplyNames | Program.cs:158-161 | First writer wins. After the fold, c has a name exactly when it had one before or a folded record is visited by c. An existing name is kept; a new one is the visiting name of c's first folded record. |
| Aggregation.ApplyKeepsOtherCodes | Program.cs:148-161 | A code that no folded record is visited by keeps its entry, or its absence, in both dictionaries. |
| Aggregation.ApplyKeepsKeysAligned | Program.cs:148-161 | If both dictionaries start with the same key set, they still have the same key set after the fold. |
| Aggregation.ResponseEffect | Program.cs:125-168 | A failed fetch or decode, or an empty record list, leaves the state unchanged. Any other list has exactly the effect of folding its completed prefix. |
| Reporting.SortedKeys | Program.cs:173-174 | No contract. Defines the codes of `teamPoints` in the order `Keys.ToList()` followed by `Sort()` leaves them. Its properties are in SortedKeysSpec. |
| Reporting.EntryFor | Program.cs:178-182 | No contract. Defines the block printed for one code: the code, its recorded name or "Unknown Team", and its total. |
| Reporting.Blocks | Program.cs:176-182 | No contract. Defines the blocks for a list of codes, in the order given. Its pointwise form is in BlocksAt. |
| Reporting.ReportOf | Program.cs:173-184 | No contract. Defines the report of a state: the blocks of the sorted codes. Its properties are in ReportSpec. |
| Reporting.SortedKeysSpec | Program.cs:173-174 | The sorted code list is strictly ascending, has the same members as the key set, and has one element per key. |
| Reporting.ReportSpec | Program.cs:173-182 | The report has one block per key of `teamPoints`. Blocks come in strictly ascending code order, every key appears, and each block carries the code's total and its recorded name, or "Unknown Team" when none is recorded. |
| Reporting.ReportUsesRecordedNames | Program.cs:178 | When both dictionaries have the same key set, every block's name is the recorded one: the "Unknown Team" fallback is never used. |
| Reporting.ReportOfEmpty | Program.cs:173-184 | An empty `teamPoints` gives an empty report. |
| Reporting.SortTeamCodes | Program.cs:173-174 | Returns the key set's codes in ascending order, each once. |
| Accumulator.TeamTotals.constructor | Program.cs:115-116 | Both dictionaries start empty, with the same (empty) key set. |
| Accumulator.TeamTotals.FoldRecord | Program.cs:136-161 | One foreach iteration updates both dictionaries in place to `Credit` of their old value, and keeps their key sets equal. |
| Accumulator.TeamTotals.FoldGames | Program.cs:134-162 | The foreach updates the dictionaries to the fold of the list. `completed` holds exactly when no record had a null visiting side. Key sets stay equal. Sum by key and first writer wins hold per code (`FoldedByKey`). |
| Accumulator.TeamTotals.ProcessResponse | Program.cs:125-168 | One team index's attempt. A failure changes nothing, an empty list is skipped, and otherwise the list is folded. |
| Accumulator.TeamTotals.Report | Program.cs:173-184 | The blocks the report loop emits are exactly `ReportOf` of the current dictionaries. |
| Accumulator.ApplyOneMore | Program.cs:134-162 | After i completed records, folding record i extends the fold of the first i records by one `Credit` step. |
| Accumulator.FoldEnds | Program.cs:134-136 | The foreach ends at index i, the first null visiting side or the end of the list. The completed prefix is the first i records, and the whole list is completed exactly when i is its length. |
| Accumulator.ClosedForms | Program.cs:134-161 | The fold satisfies sum by key and first writer wins at every code, and keeps equal key sets equal. |
| Requests.DecimalString | Program.cs:120 | `teamNumber.ToString()`: at least one decimal digit, and no leading zero unless the number is 0. |
| Requests.ParseDecimalString | Program.cs:120 | Reading the decimal string back gives the number it was made from. |
| Requests.RequestUrl | Program.cs:120-121 | No contract. Defines the URL for one team index: the query prefix followed by the index in decimal. Its properties are in RequestUrlSpec and RequestUrlInjective. |
| Requests.RequestUrlSpec | Program.cs:108-121 | A request URL is the fixed prefix `...searchHandler?fileType=inline&statType=teamStats&season=2020&teamName=` followed by decimal digits that read back as the team index. |
| Requests.RequestUrlInjective | Program.cs:118-121 | Different team indices give different URLs. |
| Requests.RequestsInOrder | Program.cs:118-121 | There are n requests, and request i (from 0) is the URL for team index i + 1. |
| Processor.Fetch | Program.cs:127-130 | No contract. Defines the GET and decode for one URL as a lookup in `network`; a URL with no entry fails. |
| Processor.RunTeams | Program.cs:118-170 | No contract. Defines the state after the attempts for team indices 1..n, in that order. Its properties are in RunTeamsKeepsKeysAligned and RunTeamsWithoutRecords. |
| Processor.ProcessTeamStats | Program.cs:113-185 | The URLs are requested in order for indices 1..32. The report is `ReportOf` the state reached by the 32 attempts in order. The final dictionaries have the same key set. |
| Processor.RunTeamsKeepsKeysAligned | Program.cs:118-170 | Every sequence of attempts keeps the two dictionaries on the same key set. |
| Processor.ReportNamesAreRecorded | Program.cs:176-182 | Every block of the season report carries the name recorded for its code, never the fallback. |
| Processor.RunTeamsWithoutRecords | Program.cs:118-170 | Attempts that all fail or return empty lists leave the state unchanged. |
| Processor.EmptySeason | Program.cs:113-185 | When all 32 attempts fail or return empty lists, the report is empty. |

## Left out
- HTTP GET and reading the body (Program.cs:123-128): network I/O, replaced by the `network` map from URL to decoded records. A new `HttpClient` per index and its disposal have no modelled effect.
- `JsonConvert.DeserializeObject` (Program.cs:130): a foreign library. Its outcome is the `Option` in `network`. Newtonsoft's defaults for missing fields (0 for `int`, null for references) are part of the decoded value, not modelled logic.
- `UrlDataReader` and `JsonDataParser` (Program.cs:55-104): never called from the modelled flow.
- Console output: the error messages, the report's line formatting and the banner (Program.cs:167, 180-183, 192). They are I/O, so the report is returned as a sequence of `Entry` blocks.
- async/await and `Task` (Program.cs:113, 190): plumbing only; execution is sequential.
- The `GameStats` members other than `TeamCode` and `Score`, including the rush, pass and penalty counters (Program.cs:13-31): nothing in the modelled flow reads them.
- Reporting.SortTeamCodes: `List.Sort` is a library call, modelled by its result (repeatedly taking the minimum of the remaining keys) rather than by its in-place algorithm.
- Exceptions other than null dereferences inside the foreach: none other can occur there. An exception thrown while reading the dictionaries for the report cannot happen, since every sorted code is a key of `teamPoints`.
