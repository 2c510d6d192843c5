# BSF-bot core, modelled in Dafny

This project models the three pieces of real logic in the BSF-bot Discord bot:

- **The weight ledger.** Every user has a CSV file of `[date, weight]` rows after a header row. The bot
  - records a weight (append, stable sort by the date text, rewrite);
  - reads the weights inside a trailing period;
  - removes every row of a date;
  - plots the weights with an optional moving average.

  There are three revisions: `cogs/weightcog.py`, `cogs/weight_cog.py` and the infrastructure library's `weight_repository.py`.
- **The meal-plan calculators** of `cogs/mealplan.py`. These are the lookup tables, the body-composition formulas, the protein, fat, carb, TDEE, BMI and BMR formulas, the years-left-to-build-muscle loop, and the step of the `mealplan` command that derives the calorie target and the macros.
- **The info-command store.** This is a directory of `<name>.txt` files that the `learn`, `whatis`, `rm`, `list` and `backup` commands write, read, delete and list. There are three revisions: `cogs/info_commands.py`, `cogs/info_commands_cog.py` and the infrastructure library's `info_repository.py`.

Modules:

| Module | Models |
|---|---|
| `Errors` | The Python exceptions a computation can end in, and PEP 479's conversion of a `StopIteration` that leaves a coroutine into a `RuntimeError`. |
| `StringOrder` | Python's `<=` on `str`, the key of the date sort. |
| `Ledger` | The row logic every weight revision shares: the stable sort (`list.sort` with a key, specified as insertion), the row filter of `remove_weight_record`, the row loop of `read_weight_data`, and the moving-average loop. |
| `WeightRepository` | `weight_repository.py`, whose period table and helpers `cogs/weightcog.py` repeats verbatim. |
| `WeightCog` | `cogs/weightcog.py`. |
| `WeightCogRevised` | `cogs/weight_cog.py`. |
| `Mealplan` | `cogs/mealplan.py`. |
| `InfoFiles` | The directory the info commands live in: the file system as a map from path to text, `os.listdir`, `os.path.join`, ASCII `str.lower`, `sorted`, `" ".join`, and the `list` reply. |
| `InfoCommands` | `cogs/info_commands.py`. |
| `InfoCog` | `cogs/info_commands_cog.py`. |
| `InfoRepository` | `info_repository.py`. |

The command handlers become classes whose `files` field is the file system, or pure methods over a file's rows.

Discord is reduced to the parameters the handlers use:
- the `bot-input` role, as a boolean;
- the author and the optional user named;
- the message date.

Date parsing (`strptime`) and `float` are parameters, and today's date is a day number passed in.

Recording a weight does not replace an earlier entry for the same date: both rows are kept, and the new one comes last among them (`WeightCog.RewrittenFile`).

In `cogs/mealplan.py` the conversation stores the gender as typed, and `calculate_bmr` picks the male equation only for the exact string `"Male"`. The model keeps that as written (`Mealplan.LowercaseMaleIsFemale`).

## Model

| member | source | states |
|---|---|---|
| StringOrder.LexLeReflexive | cogs/weightcog.py:183 | The date order of the sort key is reflexive. |
| StringOrder.LexLeAntisymmetric | cogs/weightcog.py:183 | Two dates that are each `<=` the other are equal. |
| StringOrder.LexLeTransitive | cogs/weightcog.py:183 | The date order is transitive. |
| StringOrder.LexLeTotal | cogs/weightcog.py:183 | Any two date texts are comparable. |
| StringOrder.NotLexLeIsGreater | cogs/weightcog.py:183 | A date that is not `<=` another is strictly greater than it. |
| Ledger.SelectAppend | cogs/weightcog.py:310-314 | Filtering rows by date distributes over concatenation. |
| Ledger.SelectPartition | cogs/weightcog.py:310-314 | The rows on a date and the rows not on it split the file: every row is in exactly one part, as a multiset, and the lengths add up. |
| Ledger.RowsNotOnAbsent | libs/bsf-infrastructure/repositories/weight_repository.py:93-97 | With no row on the date, every row is written unchanged and in order. |
| Ledger.RowsNotOnIdempotent | libs/bsf-infrastructure/repositories/weight_repository.py:93-97 | Removing a date a second time changes nothing. |
| Ledger.InsertByDatePermutes | cogs/weightcog.py:183 | Inserting a row adds exactly that row to the multiset of rows. |
| Ledger.InsertByDateSorted | cogs/weightcog.py:183 | Inserting into rows sorted by date keeps them sorted. |
| Ledger.InsertByDateStable | cogs/weightcog.py:183 | The inserted row comes after the rows already on its date, and other dates are untouched. |
| Ledger.SortByDateSorted | cogs/weightcog.py:183 | The sorted rows are nondecreasing by date text. |
| Ledger.SortByDatePermutes | cogs/weightcog.py:183 | Sorting is a permutation of the rows. |
| Ledger.SortByDateStable | cogs/weightcog.py:183 | Sorting is stable: the rows on each date keep their file order. |
| Ledger.SortByDateStableAll | cogs/weight_cog.py:111 | Stability holds for every date at once. |
| Ledger.AppendThenSort | cogs/weightcog.py:180-183 | Appending then sorting gives sorted rows, namely the old rows plus the new one, with the new row last on its date. |
| Ledger.RemoveWeightRecord | cogs/weightcog.py:303-317 | The loop writes exactly the rows whose first cell differs from the date, in order. The flag is true iff some row matched. With a false flag the output is the input. |
| Ledger.InsidePeriodWindow | cogs/weightcog.py:201-213 | A known period never accepts a future day. It accepts `today` and `today - N`, and rejects `today - N - 1`. An unknown one raises. |
| Ledger.InsidePeriodNested | cogs/weightcog.py:206-213 | A longer window accepts every day a shorter one accepts. |
| Ledger.ReadRows | cogs/weightcog.py:231-237 | The row loop yields the value of the function `ReadSpec`: the first exception raised, or the in-period `(day, weight)` pairs in file order. |
| Ledger.ReadSpecInPeriod | cogs/weightcog.py:235-237 | Every pair read lies inside the period. |
| Ledger.ReadSpecSameWindow | cogs/weightcog.py:34-41 | Two periods with the same window read the same pairs. |
| Ledger.ReadSpecSkipsHeaders | cogs/weightcog.py:232-233 | Skipping repeated header rows is reading the rows with the headers taken out. |
| Ledger.ReadSpecAll | cogs/weightcog.py:203-204 | For the period `"all"` with parseable rows, the read keeps every row, in order. |
| Ledger.ReadSpecUnknownPeriod | cogs/weightcog.py:206-210 | With an unknown period, only a file without data rows reads (as empty). Otherwise the read fails, either with a date error of one of its rows or with the period error: `KeyError(period)` where the lookup escapes, `ValueError("Invalid period.")` where it is caught. When every date parses, the error is the period error. |
| Ledger.Unzip | cogs/weightcog.py:390 | `zip(*data)` gives the two columns pairwise, and raises `ValueError` exactly on an empty read. |
| Ledger.MovingAverages | cogs/weightcog.py:406-409 | There are `max(0, n - p + 1)` averages, and average `i` is the mean of weights `i` to `i + p - 1`. |
| Ledger.AverageDates | cogs/weightcog.py:412 | `dates[p-1:]` has one date per average: the last date of its window. |
| Ledger.SumBetween | cogs/weightcog.py:408 | A sum of values in `[lo, hi]` lies in `[lo·n, hi·n]`. |
| Ledger.MeanBetween | cogs/weightcog.py:408 | A window's mean lies between its smallest and largest weight. |
| Ledger.SumConstant | cogs/weightcog.py:408 | The sum of `n` equal weights is `n` times the weight. |
| Ledger.MeanConstant | cogs/weightcog.py:408 | A steady weight gives a flat average. |
| Ledger.MovingAveragesBetween | cogs/weight_cog.py:280-283 | Every moving average lies within the bounds of the weights. |
| WeightRepository.DateInsidePeriod | libs/bsf-infrastructure/repositories/weight_repository.py:168-191 | `"all"` accepts every day. Each name of the table accepts `today - N` through `today` (7, 30 or 365). Any other name raises `KeyError`, which `except ValueError` does not catch. |
| WeightRepository.PeriodAliases | libs/bsf-infrastructure/repositories/weight_repository.py:18-25 | `weekly_avg`/`last_week`, `monthly_avg`/`last_month` and `yearly_avg`/`last_year` give identical windows. |
| WeightRepository.ReadWeightData | libs/bsf-infrastructure/repositories/weight_repository.py:56-69 | An empty file raises `StopIteration`. Otherwise the result is the read of the rows after the first, skipping every row equal to the header. |
| WeightRepository.ReadAliases | libs/bsf-infrastructure/repositories/weight_repository.py:18-25 | Reading under a moving-average name reads what its period name reads. |
| WeightRepository.ReadUnknownPeriod | libs/bsf-infrastructure/repositories/weight_repository.py:184-188 | With an unknown period, the read raises `KeyError` unless there are no data rows. |
| WeightCog.MayActOnCases | cogs/weightcog.py:150 | Naming no user, or yourself, is always allowed. Naming someone else is allowed iff you hold the `bot-input` role. |
| WeightCog.RecordDate | cogs/weightcog.py:163-164 | The record is filed under the given date, or the message's date when none (or an empty one) is given. |
| WeightCog.RewrittenFile | cogs/weightcog.py:169-189 | The rewritten file has the header first, then the rows sorted by date: the old rows plus the new one. The new row is last on its date, same-date duplicates survive, and every other date keeps its rows in order. |
| WeightCog.Record | cogs/weightcog.py:131-190 | Others cannot act without the role. For an empty existing file, `next()` raises `StopIteration`, which leaves the coroutine as `RuntimeError("coroutine raised StopIteration")`. Otherwise the file is rewritten with the existing header (or the standard one) and the new row. Both outcomes record whether the body sent "Not a valid weight." for a weight `float` rejects. Such a weight is written all the same, on the path where the handler is called with one. |
| WeightCog.AverageWindow | cogs/weightcog.py:393-404 | Exactly `weekly_avg`, `monthly_avg` and `yearly_avg` are accepted, with windows 7, 30 and 365 as in the period table. |
| WeightCog.Stats | cogs/weightcog.py:363-412 | This is the guard, then the missing file, then the inline read (first row skipped only), then the empty-read `ValueError`. An empty file ends in `RuntimeError("coroutine raised StopIteration")`. `no_avg` plots the weights alone, an unknown name gets the invalid-moving-average reply, and a known one plots the averages with their dates. |
| WeightCogRevised.DateInsidePeriod | cogs/weight_cog.py:138-159 | Only `last_week`, `last_month`, `last_year` (7, 30, 365) and `"all"` are known. Every other name, including `weekly_avg`, raises `ValueError("Invalid period.")`. |
| WeightCogRevised.AverageNamesRejected | cogs/weight_cog.py:145-157 | The moving-average names are not periods in this revision. |
| WeightCogRevised.InsertWeightEntry | cogs/weight_cog.py:119-136 | The result is the existing data rows (header excluded) with `[date, weight]` appended last, one row longer. An empty existing file raises `StopIteration`. |
| WeightCogRevised.SortWeightEntries | cogs/weight_cog.py:106-116 | The written file is the standard header plus the entries: sorted by date, a permutation, and stable on every date. |
| WeightCogRevised.Record | cogs/weight_cog.py:68-103 | Behaves as the first revision, except that the standard header replaces the file's own. The `StopIteration` of an empty file leaves the coroutine as `RuntimeError("coroutine raised StopIteration")`, with a flag recording whether "Not a valid weight." was already sent. |
| WeightCogRevised.ReadWeightData | cogs/weight_cog.py:162-178 | An empty file raises `StopIteration`. Otherwise the result is the in-period pairs of the rows after the first, with repeated headers not skipped. |
| WeightCogRevised.Stats | cogs/weight_cog.py:253-288 | This is the guard, then the missing file, then the read and the empty-read `ValueError`. A `StopIteration` from the read leaves the coroutine as `RuntimeError("coroutine raised StopIteration")`; other read errors pass unchanged. A name in the moving-average table plots the averages. Any other name, `no_avg` included, gets the invalid-moving-average reply. |
| WeightCogRevised.AverageWindowsAgree | cogs/weight_cog.py:21-25 | Both revisions accept the same moving averages with the same windows. They differ only on `no_avg`. |
| WeightCogRevised.NoAvgCounterexample | cogs/weight_cog.py:271-278 | For `.stats no_avg all` on a one-weight file, this revision answers with the invalid-moving-average message, where the first revision plots the weight. |
| Mealplan.GoalTablesAgree | cogs/mealplan.py:7-45 | Every goal of the goal table has a calorie adjustment and a protein multiplier, and those two tables have exactly the goals as keys. |
| Mealplan.Round | cogs/mealplan.py:108 | `round` lands within 0.5 of its argument, and on a tie it picks the even integer. |
| Mealplan.RoundInt | cogs/mealplan.py:108 | Rounding an integer gives it back. |
| Mealplan.RoundMonotone | cogs/mealplan.py:108 | Rounding preserves order. |
| Mealplan.StateWeight | cogs/mealplan.py:48-53 | The Berkhan weight is `0.9·height − 82`. |
| Mealplan.StateWeightRule | cogs/mealplan.py:48-53 | The Berkhan weight is 89 kg at the reference height of 190 cm, rises 9 kg per 10 cm, and is strictly increasing in height. |
| Mealplan.Ffm | cogs/mealplan.py:79-80 | For a weight and a body fat between 0 and 100 %, the fat-free mass lies between 0 and the weight. |
| Mealplan.TotalBodyfat | cogs/mealplan.py:83-84 | The fat mass is `weight·bf/100`, and fat plus fat-free mass is the weight. |
| Mealplan.Ffmi | cogs/mealplan.py:87-88 | The FFMI times the squared height in metres is the fat-free mass. A zero height raises `ZeroDivisionError`. |
| Mealplan.AdjustedFfmi | cogs/mealplan.py:91-92 | The adjusted FFMI is the FFMI plus `6.1·(1.8 − h/100)`, and it fails exactly when the FFMI does. |
| Mealplan.AdjustedFfmiAt180 | cogs/mealplan.py:91-92 | At 180 cm the adjusted and plain FFMI are equal. Below 180 the adjusted one is larger, and above it is smaller. |
| Mealplan.MuscleLeftIsFfmiGap | cogs/mealplan.py:62-65 | The muscle left to build is the distance of the adjusted FFMI from 25, scaled by the squared height. |
| Mealplan.MuscleLeft | cogs/mealplan.py:62-65 | The muscle left plus the fat-free mass now is the lean mass at an adjusted FFMI of 25. |
| Mealplan.MaxWeightAsWritten | cogs/mealplan.py:56-59 | As written, the fat-free mass of the maximum weight is the lean mass at the FFMI times `1 − (bf/100)²`, not the lean mass itself. |
| Mealplan.MaxWeightAsWrittenLeavesMuscle | cogs/mealplan.py:56-59 | As written, the maximum weight for 180 cm at 20 % still has muscle left to build. |
| Mealplan.MaxWeight | cogs/mealplan.py:56-59 | At the maximum weight, the fat-free mass is the lean mass at the FFMI. |
| Mealplan.MaxWeightLeavesNoMuscle | cogs/mealplan.py:56-65 | At the maximum weight for an FFMI of 25 there is no muscle left to build. |
| Mealplan.YearsLeftToBuildMuscle | cogs/mealplan.py:68-76 | The loop counts the years of `Years` over the gain rates. |
| Mealplan.CountYears | cogs/mealplan.py:70-76 | The loop with its `break` counts one year per rate while muscle is left: `Years`. |
| Mealplan.YearsAtMost | cogs/mealplan.py:68-76 | The loop counts at most one year per rate (10), and none when nothing is left. |
| Mealplan.YearsMonotone | cogs/mealplan.py:68-76 | More muscle left never means fewer years. |
| Mealplan.PrefixSumNonDecreasing | cogs/mealplan.py:69 | With positive rates, the muscle gained grows with the years. |
| Mealplan.PrefixSumTail | cogs/mealplan.py:71-75 | The gain of `k+1` years is the first year's rate plus the gain of `k` years of the remaining rates. |
| Mealplan.YearsThreshold | cogs/mealplan.py:68-76 | The loop runs past year `k` exactly when the muscle left exceeds the first `k` years of gain. |
| Mealplan.BodyfatMultiplier | cogs/mealplan.py:101-106 | The multiplier is 1.2 at or below 10 %, 0.8 at or above 25 %, and 1 in between. |
| Mealplan.BodyfatMultiplierNonIncreasing | cogs/mealplan.py:101-106 | More body fat never raises the multiplier. |
| Mealplan.Protein | cogs/mealplan.py:95-108 | A missing input raises `TypeError`, and an unknown goal raises `KeyError`. Otherwise the result is within 0.5 of weight × goal multiplier × body-fat multiplier. |
| Mealplan.ProteinByGoal | cogs/mealplan.py:41-45 | At the same weight and body fat: bulk ≤ maintain ≤ cut. |
| Mealplan.Fats | cogs/mealplan.py:111-114 | A missing input raises `TypeError`. Otherwise the grams of fat carry a fifth of the calories, to within 4.5 kcal. |
| Mealplan.Carbs | cogs/mealplan.py:117-120 | A missing input raises `TypeError`. Otherwise fat, protein and carbs add up to the calories to within 2 kcal. |
| Mealplan.Tdee | cogs/mealplan.py:123-126 | A missing input raises `TypeError`. Otherwise the result is within 0.5 of BMR × activity. |
| Mealplan.Bmi | cogs/mealplan.py:129-132 | A missing input raises `TypeError`, and a zero height raises `ZeroDivisionError`. Otherwise the result is within 0.5 of weight over the squared metres. |
| Mealplan.Bmr | cogs/mealplan.py:135-141 | A missing input raises `TypeError`. The male equation applies for exactly `"Male"`, and the female one for any other string. |
| Mealplan.LowercaseMaleIsFemale | cogs/mealplan.py:139-141 | `"male"`, as the conversation may store it, gets the female equation. |
| Mealplan.BmrMonotone | cogs/mealplan.py:139-141 | The BMR grows with weight and height and shrinks with age. |
| Mealplan.DeriveKcals | cogs/mealplan.py:186-192 | A non-zero target is kept. Otherwise the target is TDEE plus the goal's adjustment, and a missing activity level raises `TypeError`. |
| Mealplan.KcalsByGoal | cogs/mealplan.py:35-39 | A bulk is 200 kcal above maintenance, and a cut is 500 below it. |
| Mealplan.MacrosFor | cogs/mealplan.py:194-198 | The macros exist iff the protein does, and carry that protein. |
| Mealplan.MacrosEnergy | cogs/mealplan.py:194-198 | The macros' energy is the calorie target to within 2 kcal, with fat about a fifth of it. |
| InfoFiles.Lower | cogs/info_commands.py:56 | Lower-casing keeps the length, maps each character, and leaves no capital. |
| InfoFiles.LowerIdempotent | cogs/info_commands.py:56 | Lower-casing twice is lower-casing once. |
| InfoFiles.LowerOfLowercase | cogs/info_commands.py:56 | A name without capitals is unchanged by lower-casing. |
| InfoFiles.LowerKeepsSlashes | cogs/info_commands.py:56 | Lower-casing adds and removes no path separator. |
| InfoFiles.TxtPathInjective | cogs/info_commands.py:56 | Distinct names give distinct file paths. |
| InfoFiles.Listing | cogs/info_commands.py:71 | `os.listdir` gives non-empty names without separators, each joined onto an existing file. |
| InfoFiles.ListingMembers | cogs/info_commands.py:71 | A file is listed iff it lies directly inside the directory. |
| InfoFiles.DropLast4 | cogs/info_commands.py:73 | `name[:-4]` drops the last four characters, and is empty for a shorter name. |
| InfoFiles.TxtNames | cogs/info_commands.py:72-74 | A command is listed iff its name plus `.txt` is in the directory. |
| InfoFiles.CommandsMembers | cogs/info_commands.py:71-74 | A command is listed iff its file is in the directory, and a name with a separator never is. |
| InfoFiles.TxtPathIsJoin | cogs/info_commands.py:56 | Inside a directory path, `f"{dir}/{name}.txt"` is the joined path of `name.txt`. |
| InfoFiles.JoinInjective | cogs/info_commands_cog.py:39 | Distinct names join to distinct paths. |
| InfoFiles.CommandsAfterWrite | cogs/info_commands.py:56-58 | Writing a command's file adds that command to the listing, and nothing else. |
| InfoFiles.CommandsAfterDelete | cogs/info_commands.py:113-116 | Deleting a command's file removes that command from the listing, and nothing else. |
| InfoFiles.ListingAfterOutsideWrite | cogs/info_commands_cog.py:58-60 | A file written outside the directory leaves its listing unchanged. |
| InfoFiles.InsertName | cogs/info_commands.py:72 | Inserting a new name into a strictly sorted list keeps it strictly sorted, with exactly one more name. |
| InfoFiles.SortedNames | cogs/info_commands.py:72 | `sorted` gives a strictly increasing list with exactly the names found. |
| InfoFiles.SortedUnique | cogs/info_commands.py:72 | Two strictly sorted lists of the same names are the same list. |
| InfoFiles.SortNames | cogs/info_commands.py:72-74 | Sorting the names in whatever order the directory yields them gives `SortedNames`. |
| InfoFiles.SplitJoinSpaced | cogs/info_commands.py:77 | `" ".join` of names without spaces splits back into the names. |
| InfoFiles.ListReply | cogs/info_commands.py:76-80 | The reply is "No commands saved yet." iff there are no names. Otherwise it is the code block headed "Saved commands:". |
| InfoFiles.ListReplyNames | cogs/info_commands.py:76-78 | The names can be read back out of a non-empty listing. |
| InfoFiles.ListCommandsReply | cogs/info_commands.py:71-80 | `list` replies with the sorted command names of the directory. The no-commands message comes iff there are none. |
| InfoCommands.SameFileIffSameLower | cogs/info_commands.py:56 | Two names share a file iff they agree but for letter case. |
| InfoCommands.WhatisReply | cogs/info_commands.py:93-99 | `whatis` sends the text of the lower-cased name's file, or the not-found message naming the command as typed. |
| InfoCommands.LearnThenWhatis | cogs/info_commands.py:93-97 | After `learn c m`, `whatis` answers `m` for `c` in any letter case, and answers as before for every other name. |
| InfoCommands.RmThenWhatis | cogs/info_commands.py:113-117 | After `rm c`, `whatis c` in any case is not found, and other names answer as before. |
| InfoCommands.LearnAndRmThenList | cogs/info_commands.py:71-74 | `learn` lists the lower-cased name, and `rm` unlists it. |
| InfoCommands.InfoCommandsCog.constructor | cogs/info_commands.py:30-33 | The cog starts on its configured directory, which `str(Path(...))` never leaves empty. |
| InfoCommands.InfoCommandsCog.Learn | cogs/info_commands.py:43-59 | Without the role nothing happens. With it, the lower-cased name's file is written (or overwritten) and the learned reply sent. |
| InfoCommands.InfoCommandsCog.List | cogs/info_commands.py:61-80 | The reply is the sorted listing, or "No commands saved yet." iff there are no commands. |
| InfoCommands.InfoCommandsCog.Whatis | cogs/info_commands.py:82-99 | Replies with the stored text or the not-found message, and changes nothing. |
| InfoCommands.InfoCommandsCog.Rm | cogs/info_commands.py:101-119 | A present command's file is deleted, and nothing else. A missing one leaves the store unchanged and is reported not found. |
| InfoCommands.LearnWhatisRmScenario | tests/test_info_commands.py:37-51 | The integration test's learn, whatis and rm give the three replies it asserts, and the store ends as it began. |
| InfoCog.SavePathInjective | cogs/info_commands_cog.py:58 | With the file key `save_directory + name + ".txt"`, distinct names give distinct files. |
| InfoCog.WhatisReply | cogs/info_commands_cog.py:90-96 | `whatis` sends the text of the file named exactly as typed, or the not-found message. |
| InfoCog.LearnThenWhatis | cogs/info_commands_cog.py:90-94 | After `learn c m`, `whatis` answers `m` only for the lower-cased `c`. |
| InfoCog.CapitalisedNameNotFound | cogs/info_commands_cog.py:90-118 | `learn Carbs` then `whatis Carbs` answers not found, where the other cog answers the text. `rm Carbs` replies "No command named 'Carbs' found." and leaves the learned `carbs` file in place. |
| InfoCog.LoweredWhatisReply | cogs/info_commands_cog.py:90-96 | A `whatis` that lower-cases as `learn` does sends the text of the lower-cased name's file. |
| InfoCog.LoweredLearnThenWhatis | cogs/info_commands_cog.py:58-61 | With that lookup, `learn c m` is found by `c` in any letter case. |
| InfoCog.LoweredLearnThenRm | cogs/info_commands_cog.py:109-118 | An `rm` that lower-cases as `learn` does removes `learn c m` by `c` in any letter case. The store is then what it held without that file, the text is shown one last time, and the lower-cased `whatis` no longer finds the command. |
| InfoCog.RmThenWhatis | cogs/info_commands_cog.py:109-118 | After `rm c`, `whatis c` is not found, and other names answer as before. |
| InfoCog.LearnAndRmThenList | cogs/info_commands_cog.py:72-73 | With a save directory ending in `/`, `learn` lists the lower-cased name and `rm` unlists the name as typed. |
| InfoCog.LearnOutsideDirectory | cogs/info_commands_cog.py:58 | With a save directory not ending in `/`, `learn` writes beside the directory, and `list` does not change. |
| InfoCog.BackupCoversListing | cogs/info_commands_cog.py:37-44 | A backup sends one message per file of the directory, and every file's message is among them. |
| InfoCog.InfoCommandsCog.constructor | cogs/info_commands_cog.py:14-19 | The cog starts on its configured save directory, which is non-empty, since `os.makedirs("")` raises. |
| InfoCog.InfoCommandsCog.Backup | cogs/info_commands_cog.py:29-44 | Without the role nothing is sent, and a missing directory gets "Save directory not found.". Otherwise there is one `**name[:-4]**` message per listed file, in some listing order. |
| InfoCog.InfoCommandsCog.Learn | cogs/info_commands_cog.py:46-61 | Without the role nothing happens. With it, the lower-cased name's file is written and the learned reply sent. |
| InfoCog.InfoCommandsCog.List | cogs/info_commands_cog.py:63-78 | The reply is the sorted listing, or the no-commands message iff there are no commands. |
| InfoCog.InfoCommandsCog.Whatis | cogs/info_commands_cog.py:80-96 | Replies with the file named as typed or the not-found message, and changes nothing. |
| InfoCog.InfoCommandsCog.Rm | cogs/info_commands_cog.py:98-118 | A present command is shown one last time and then deleted, and nothing else. A missing one is reported, and nothing changes. |
| InfoRepository.ReadInfo | libs/bsf-infrastructure/repositories/info_repository.py:18-27 | The content under the name exactly as given, or `None` iff there is no such file. |
| InfoRepository.CreateThenRead | libs/bsf-infrastructure/repositories/info_repository.py:18-27 | Reading a created name gives its content, and every other name reads as before. |
| InfoRepository.RemoveThenRead | libs/bsf-infrastructure/repositories/info_repository.py:18-45 | Reading a removed name gives `None`, and every other name reads as before. |
| InfoRepository.NamesAreCaseSensitive | libs/bsf-infrastructure/repositories/info_repository.py:73 | Creating `Carbs` leaves `carbs` as it was. |
| InfoRepository.CreateAndRemoveThenList | libs/bsf-infrastructure/repositories/info_repository.py:47-75 | Creating a name lists it, and removing it unlists it. |
| InfoRepository.InfoRepository.constructor | libs/bsf-infrastructure/repositories/info_repository.py:13-15 | The repository starts on its configured directory, which `str(Path(...))` never leaves empty. |
| InfoRepository.InfoRepository.ReadInfoCommand | libs/bsf-infrastructure/repositories/info_repository.py:18-27 | Returns the content iff the file exists, and changes nothing. |
| InfoRepository.InfoRepository.RemoveInfoCommand | libs/bsf-infrastructure/repositories/info_repository.py:29-45 | Returns true iff the file existed, and the store loses exactly that file. |
| InfoRepository.InfoRepository.ListCommands | libs/bsf-infrastructure/repositories/info_repository.py:47-62 | Returns the strictly sorted names whose `.txt` file is in the directory, exactly those. |
| InfoRepository.InfoRepository.CreateInfoCommand | libs/bsf-infrastructure/repositories/info_repository.py:64-75 | Writes (or overwrites) the content under the name exactly as given, and nothing else. |

## Left out

- Discord I/O is not modelled: messages, embeds, reactions, `wait_for` prompts, the `export` and `delete_all_user_data` commands, and the asynchronous `mealplan` conversation (only its calorie and macro step is modelled). What the handlers send is modelled as reply values or outcome datatypes.
- Plotting (matplotlib and the PNG file) is not modelled. A plot is the data it draws.
- CSV quoting, the temporary file and `os.replace`, file existence checks and the git backup are not modelled. A weight file is its rows; an info directory is a map from path to text.
- discord.py's argument converters are not modelled. `weight` and `weight_goal` declare `weight: float` (cogs/weightcog.py lines 69 and 132, cogs/weight_cog.py lines 28 and 68), so from chat a non-numeric weight is rejected with `BadArgument` before the body runs: "Not a valid weight." is never sent and no text weight is written. WeightCog.Record and WeightCogRevised.Record model the body as called directly with such a weight.
- Date parsing (`strptime`) and `float` are parameters that may fail. `datetime.now()` and the message date are parameters.
- Floats are modelled as exact reals. Float rounding error and the formatting of a float weight written to CSV are not modelled: the weight cell is the text given.
- Only ASCII letters are lower-cased. Python's Unicode case mapping is not modelled.
- `Path.touch()` in the first info cog and the repository, and `os.makedirs` in the second cog, are not modelled.
- Subdirectories inside the info-command directory are not modelled. Only files are entries. So `InfoCommands.InfoCommandsCog.Learn` and `InfoCog.InfoCommandsCog.Learn` store a name containing `/` as one entry. Python's `open(..., "w")` raises `FileNotFoundError` there when the subdirectory does not exist. When it does exist, the file lands in it; `..` always exists.
- The file system is modelled as a map from exact path strings. It is case-sensitive, and `..` and `.` are not resolved. On a case-insensitive file system (the macOS and Windows defaults), `Carbs.txt` and `carbs.txt` are one file. There, `whatis Carbs` in `cogs/info_commands_cog.py` finds what `learn Carbs` wrote. A name such as `../info/x` reaches a file the listing shows as `x`, where the model keeps a separate key that is neither listed nor found. This is the directory injection the TODO at `info_repository.py` lines 10-11 mentions, and `rm` is open to everyone.
- The order in which `os.listdir` yields names is not modelled: `backup` is stated for every order.
- `sorted` and `list.sort` are specified as values (an insertion sort), not as Python's in-place merge sort.
- The `has_role` check on `learn` and `backup` is a boolean parameter. When it fails, the command sends nothing.
- `list_commands` in `info_repository.py` builds a space-joined string it never uses; that string is not modelled.
- The revised cog and the two library files cannot run as written:
  - `cogs/weight_cog.py` does not compile. `weight_goal` (line 28) and `create_weight_plot` (line 180) put a parameter without a default after one with a default, which is a `SyntaxError` for the whole module. Its helpers `sort_weight_entries`, `insert_weight_entry`, `read_weight_data` and `remove_weight_record` take no `self`. `sort_weight_entries` writes an undefined `header_row`.
  - `weight_repository.py` cannot be imported. `Dict` is used at line 18 but never imported (`NameError` in the class body). `datetime.timezone` and `datetime.time` are looked up at lines 30 and 35 on the imported `datetime` class, which has neither (`AttributeError`).
  - `weight_repository.py` also has run-time defects. Its setup method is named `init`, not `__init__` (line 40), so `WEIGHT_DATA_PATH` is never set. `backup_weight_data` (line 102) takes no `self`, and `subprocess` (line 131) is never imported. Its `read_weight_data`, `remove_weight_record` and `date_inside_period` do take `self`.
  - `info_repository.py` names its setup method `init` (line 13), so `INFO_COMMANDS_PATH` is never set. Its four methods take no `self`, yet use `self.INFO_COMMANDS_PATH`.

  The model follows their evident logic: the methods are bound, the configured paths are set, the standard header is written, and plotting is left out.
- WeightCog.Record and WeightCog.Stats: `cogs/weightcog.py` builds the file path from `self.data_folder`, which is never set (its `__init__` sets only `WEIGHT_COG_DATA_PATH`). As written, both commands (and `weight_goal`, `export` and `delete_all_user_data`; `remove_weight` alone uses `WEIGHT_COG_DATA_PATH`) raise `AttributeError` after the permission guard. The model reads the user's file under `WEIGHT_COG_DATA_PATH`, which is evidently meant.
- Ledger.Row: every CSV row has exactly two cells, a date and a weight. The `IndexError` of a blank or one-cell row (`entry[0]`, `row[0]`, `row[1]`) is not modelled, and rows with more cells cannot be represented.
- The first revision's `remove_weight` command and the `remove_weight_record` helpers share one modelled loop, `Ledger.RemoveWeightRecord`. The date is the text the command is given.
- Mealplan.YearsLeftToBuildMuscle: stated against `Years` over the real rates. The per-year float subtraction is exact in the model.

## Findings

| source | as written | input that shows it | evidently intended | confidence | as-written member | corrected member |
|---|---|---|---|---|---|---|
| cogs/weight_cog.py:271-278 | With `no_avg`, the plot is drawn, then the table lookup fails, and the command answers "Invalid moving average." without saving the plot, where the first revision (once its data path is defined) plots the weights. | `.stats no_avg all` on a file with one weight | `no_avg` plots the weights without an average and saves the plot, as the first revision does. | not executed | WeightCogRevised.NoAvgCounterexample | WeightCog.Stats |
| cogs/mealplan.py:56-59 | The maximum weight adds `bf` percent of the lean mass, so the body is under `bf` percent fat, and `calculate_muscle_left_to_build` still finds muscle to build at that weight. | FFMI 25, 180 cm, 20 % body fat | The weight at which `bf` percent of the body is fat: lean mass divided by `1 − bf/100`. | not executed | Mealplan.MaxWeightAsWrittenLeavesMuscle | Mealplan.MaxWeightLeavesNoMuscle |
| cogs/info_commands_cog.py:90-109 | `learn` lower-cases the name, but `whatis` and `rm` use it as typed, so on a case-sensitive file system a capitalised name is never found or removed again. | `learn Carbs text`, then `whatis Carbs` or `rm Carbs` | `whatis` and `rm` lower-case the name, as `learn` does and as `cogs/info_commands.py` does. | not executed | InfoCog.CapitalisedNameNotFound | InfoCog.LoweredLearnThenRm |
