# Python Mini Utilities, modelled in Dafny

A model of the sequential core of the small tools in `tools/`. Each tool is its own module:

- the chemistry toolkit's formula parser, element lookup and solver checks (`ChemTable`, `ChemFormula`, `ChemSolvers`, `ChemExamples`);
- the command-line and web to-do lists over one task file (`TodoCli`, `TodoWeb`);
- the password checker (`PasswordChecker`) and the password generator (`PasswordGenerator`);
- the Pomodoro Kanban board (`Pomoban`);
- the port watcher's bookkeeping (`PortWatcher`);
- the finance tracker's data rules (`FinanceTracker`);
- the barcode generator's input checks (`Barcode`);
- the CAPTCHA generator (`Captcha`);
- the resume analyzer (`Resume`), the word counter (`WordCounter`) and the chatbot (`Chatbot`).

`Ascii` holds the Python string methods the tools share: `lower`, `upper`, `strip`, `split`, `isdigit`, `isspace`, `isprintable`, `in` on strings, and `str(n)`. `Wrappers` holds `Option`.

Some things the tools do are turned into parameters:

- files, the sqlite table and the JSON store are in-memory values (a `string` file text, a `map` of rows, a datatype);
- random draws are index parameters;
- the clock text, the typed input lines and `check_port` are parameters.

Code that updates state step by step is modelled as methods:

- classes whose methods change fields (`TodoCli.Store`, `TodoWeb.App`, `Pomoban.Board`, `FinanceTracker.Tracker`);
- loops (the bracket expansion and tally loops of `parse_formula`, the element search of `element_info`, the port sweep, the hard CAPTCHA display, the resume accumulator, the in-place shuffle of the password generator).

Most loops are proved equal to a recursive specification function: the bracket expansion and the tally, the element search, the port sweep, the hard display and the shuffle. The others state their result directly: `PortWatcher.Decide`, the finance prompts (`ReadFirst`, `ReadCleaned`, `Attempts`, `GetValidInput`) and `Resume.Accumulate`, whose result is the non-recursive `Points` and `Feedback`. The class methods state their new fields as functions of the old ones. The properties are lemmas about those functions.

## Model

| member | source | states |
|---|---|---|
| Ascii.Lower | tools/chatbot.py:8 | `str.lower` keeps the length and lower-cases exactly the ASCII capitals, position by position |
| Ascii.Upper | tools/barcode_generator.py:49 | `str.upper` keeps the length and upper-cases exactly the ASCII small letters |
| Ascii.LowerIdempotent | tools/chatbot.py:8 | lower-casing twice is lower-casing once |
| Ascii.LowerOfUpper | tools/chatbot.py:8 | lower-casing upper-cased text gives the same as lower-casing the text itself |
| Ascii.LStrip | tools/word_counter.py:29 | the result is a suffix, starts with no whitespace, and only whitespace was dropped |
| Ascii.RStrip | tools/word_counter.py:29 | the result is a prefix, ends with no whitespace, and only whitespace was dropped |
| Ascii.Strip | tools/word_counter.py:29 | `str.strip()`, defined as `rstrip` after `lstrip`; its properties are `StripShape`, `StripIdempotent` and `WordsOfStrip` |
| Ascii.StripShape | tools/word_counter.py:29 | `strip` gives a stripped string, is the identity exactly on stripped strings, and gives `""` exactly on all-whitespace text |
| Ascii.StripIdempotent | tools/word_counter.py:29 | stripping twice is stripping once |
| Ascii.TakeWord | tools/word_counter.py:29 | the next word `split` takes is the longest whitespace-free prefix |
| Ascii.Words | tools/word_counter.py:29 | the words of `split()` are non-empty and whitespace-free |
| Ascii.WordsOfInterleave | tools/word_counter.py:15-17 | words laid out between any non-empty whitespace gaps (the outer gaps possibly empty) split back into exactly those words |
| Ascii.InterleaveWordsGaps | tools/word_counter.py:15-17 | every string is its `split()` words laid out between its whitespace gaps |
| Ascii.WordsAppendSpaces | tools/word_counter.py:29 | trailing whitespace adds no word |
| Ascii.WordsOfStrip | tools/word_counter.py:29 | `strip().split()` equals `split()` |
| Ascii.NatToString | tools/chem_toolkit.py:186 | `str(n)` is all digits with no leading zero |
| Ascii.NatToStringValue | tools/chem_toolkit.py:177 | `int(str(n)) == n` |
| Ascii.PadTwo | tools/pomoban.py:69 | `f"{n:02d}"` has at least two digits, exactly two below 100 |
| Ascii.ContainsAt | tools/chatbot.py:10 | a substring at any position makes `sub in s` true |
| Ascii.ContainsWitness | tools/chatbot.py:10 | conversely, `sub in s` gives a position of `s` at which `sub` starts |
| Ascii.ContainsIff | tools/chatbot.py:10 | `sub in s` holds exactly when `sub` starts at some position of `s` |
| ChemTable.Find | tools/chem_toolkit.py:235-243 | the search loop finds the first matching entry at or after the start, and `None` exactly when none matches |
| ChemTable.FindListed | tools/chem_toolkit.py:235-243 | the search succeeds exactly when some entry matches |
| ChemTable.Lookup | tools/chem_toolkit.py:222-245 | the lookup of `element_info` over a table, defined by its body: a symbol match first, then the atomic number of an all-digit query, then the name in any case; its properties are `LookupBySymbol`, `LookupByNumber`, `LookupByName` and `LookupNone` |
| ChemTable.Info | tools/chem_toolkit.py:222-245 | `Lookup` over the periodic table; its properties are `InfoByNumber` and `InfoExamples` |
| ChemTable.Search | tools/chem_toolkit.py:222-245 | the imperative lookup of `element_info`, with its two loops, returns `Lookup` |
| ChemTable.ElementInfo | tools/chem_toolkit.py:222-245 | `element_info` on the periodic table returns `Info` |
| ChemTable.LookupBySymbol | tools/chem_toolkit.py:226-230 | an entry whose symbol is the stripped query is the answer |
| ChemTable.LookupByNumber | tools/chem_toolkit.py:232-237 | failing a symbol, a query of digits gives the entry with that atomic number |
| ChemTable.LookupByName | tools/chem_toolkit.py:239-243 | failing both, the name is compared case-insensitively |
| ChemTable.LookupNone | tools/chem_toolkit.py:245 | `None` is returned exactly when all three tiers fail |
| ChemTable.TableWellFormed | tools/chem_toolkit.py:18-142 | the table has 118 entries, entry `i` has atomic number `i + 1`, and every symbol is `[A-Z][a-z]?` |
| ChemTable.LookupByPosition | tools/chem_toolkit.py:232-237 | in a table numbered by position, a digits query in range finds the entry at that position |
| ChemTable.InfoByNumber | tools/chem_toolkit.py:232-237 | `element_info` of a number from 1 to 118 is the element with that atomic number |
| ChemTable.InfoExamples | tools/chem_toolkit.py:226-230 | `element_info(" H\n")` is hydrogen, after the strip |
| ChemTable.SymbolExamples | tools/chem_toolkit.py:18-142 | H, C, O, S, Ca and Fe are table symbols |
| ChemFormula.DigitEnd | tools/chem_toolkit.py:181 | `\d*` is matched greedily: the digits run to the first non-digit |
| ChemFormula.Tokens | tools/chem_toolkit.py:194-196 | every token `re.finditer` yields has a symbol of the shape `[A-Z][a-z]?` |
| ChemFormula.NextBracket | tools/chem_toolkit.py:172 | the first bracket character at or after a position |
| ChemFormula.GroupMatch | tools/chem_toolkit.py:172 | a group match starts at its opening bracket and ends within the text |
| ChemFormula.GroupMatchText | tools/chem_toolkit.py:172 | a match is an opening bracket, non-empty bracket-free text, either closing bracket, then digits |
| ChemFormula.Search | tools/chem_toolkit.py:172-174 | `re.search` finds the leftmost group, and `None` exactly when no position starts one |
| ChemFormula.Expand | tools/chem_toolkit.py:170-190 | the expansion loop ends with text in which no group matches |
| ChemFormula.Tally | tools/chem_toolkit.py:193-203 | a successful tally only has table symbols as keys |
| ChemFormula.Parse | tools/chem_toolkit.py:160-205 | `parse_formula` as a function, defined by its body as the tally of the tokens of the expanded formula; its properties are `TallyCounts`, `ExpansionTokens`, `ParseWithoutCapitals` and the examples of `ChemExamples` |
| ChemFormula.ParseFormula | tools/chem_toolkit.py:160-205 | the imperative parser (expansion loop, then tally loop) computes `Parse` |
| ChemFormula.ExpandBrackets | tools/chem_toolkit.py:170-190 | the `while` loop that rewrites the leftmost group computes `Expand` |
| ChemFormula.ExpandGroup | tools/chem_toolkit.py:180-188 | the `for` loop building `expanded` computes `Expansion` |
| ChemFormula.TallyElements | tools/chem_toolkit.py:193-203 | the `for` loop accumulating `composition` computes `Tally`, stopping at the first unknown symbol |
| ChemFormula.UnknownPersists | tools/chem_toolkit.py:200-201 | once an unknown symbol is met, later tokens do not change the outcome |
| ChemFormula.BracketsAppend | tools/chem_toolkit.py:190 | bracket counts add up over concatenation |
| ChemFormula.ExpansionShape | tools/chem_toolkit.py:180-188 | an expanded group holds no bracket and starts with a capital letter |
| ChemFormula.GroupBrackets | tools/chem_toolkit.py:172 | the text a match covers holds exactly two brackets |
| ChemFormula.RewriteDrops | tools/chem_toolkit.py:170-190 | each pass removes exactly two brackets, so the loop terminates |
| ChemFormula.TotalAbsent | tools/chem_toolkit.py:196-203 | an element that does not occur has total 0 |
| ChemFormula.TallyCounts | tools/chem_toolkit.py:196-203 | a successful tally has a key exactly for the symbols that occur, each mapped to the sum of its counts |
| ChemFormula.TallyUnknown | tools/chem_toolkit.py:200-201 | the tally fails exactly when some token is not a table symbol, and it names the first one |
| ChemFormula.Scaled | tools/chem_toolkit.py:184-188 | each inner count is scaled by the multiplier, a product of at most 1 standing for 1 |
| ChemFormula.TokensAppend | tools/chem_toolkit.py:190-196 | tokens do not run across a capital letter, so the rewritten text tokenises piecewise |
| ChemFormula.TokensOfSymbolCount | tools/chem_toolkit.py:186 | a symbol written with count `n` reads back as that symbol with count `n` |
| ChemFormula.TokensOfSymbol | tools/chem_toolkit.py:196-198 | a symbol without digits reads back with count 1 |
| ChemFormula.ExpansionTokens | tools/chem_toolkit.py:176-188 | expanding a group and reading it back multiplies each inner count by the multiplier (1 if no digits); a product of at most 1 reads back as 1 |
| ChemFormula.ExpandWithoutGroup | tools/chem_toolkit.py:173-174 | with no complete group the loop stops, and the formula is tallied as it stands, even with a bracket left open |
| ChemFormula.TokensWithoutCapitals | tools/chem_toolkit.py:196 | characters that start no token are skipped |
| ChemFormula.ParseWithoutCapitals | tools/chem_toolkit.py:193-205 | a formula without capital letters gives `{}` |
| ChemFormula.SearchSkips | tools/chem_toolkit.py:172 | the search passes over text that opens no bracket |
| ChemFormula.SearchFinds | tools/chem_toolkit.py:172 | a group with no bracket opening before it is the one found |
| ChemFormula.ExpandStep | tools/chem_toolkit.py:170-190 | one pass of the loop rewrites the found group, then the loop continues |
| ChemFormula.ExpandDone | tools/chem_toolkit.py:170 | text without an opening bracket leaves the loop unchanged |
| ChemFormula.NoGroupWithoutClose | tools/chem_toolkit.py:173-174 | without a closing bracket no group matches, and expansion stops without error |
| ChemExamples.CalciumHydroxide | tools/chem_toolkit.py:166 | `Ca(OH)2` parses to `{Ca: 1, O: 2, H: 2}` |
| ChemExamples.IronSulfate | tools/chem_toolkit.py:167 | `Fe2(SO4)3` parses to `{Fe: 2, S: 3, O: 12}` |
| ChemExamples.Ethane | tools/chem_toolkit.py:196-203 | `CH3CH3` sums repeated elements to `{C: 2, H: 6}` |
| ChemExamples.ZeroInsideGroup | tools/chem_toolkit.py:185-188 | `(H0)` gives `{H: 1}`: a scaled count of 0 is written without digits |
| ChemExamples.ZeroMultiplier | tools/chem_toolkit.py:177-188 | `(OH)0` gives `{O: 1, H: 1}` |
| ChemExamples.ZeroOutsideGroup | tools/chem_toolkit.py:198-203 | `H0` outside a group gives `{H: 0}` |
| ChemExamples.MixedBrackets | tools/chem_toolkit.py:172 | `[OH)2`: either opening bracket closes with either closing one, giving `{O: 2, H: 2}` |
| ChemExamples.UnclosedBracket | tools/chem_toolkit.py:173-174 | `Ca(OH` stops expanding without error and gives `{Ca: 1, O: 1, H: 1}` |
| ChemSolvers.Div | tools/chem_toolkit.py:270-276 | float division succeeds exactly for a non-zero divisor, and its quotient times the divisor is the dividend |
| ChemSolvers.GasConstant | tools/chem_toolkit.py:144-149 | every gas constant of the table is positive |
| ChemSolvers.IdealGasLaw | tools/chem_toolkit.py:252-280 | `ideal_gas_law`, defined by its body; its properties are `IdealGasErrors` and `IdealGasSolves` |
| ChemSolvers.IdealGasErrors | tools/chem_toolkit.py:262-267 | `KeyError` exactly for an unknown unit; `ValueError` exactly when the unit is known and not exactly 3 of the 4 values are given |
| ChemSolvers.IdealGasSolves | tools/chem_toolkit.py:269-276 | the value solved for the missing quantity satisfies `P V = n R T` |
| ChemSolvers.Dilution | tools/chem_toolkit.py:283-305 | `dilution_calculator`, defined by its body; its properties are `DilutionErrors` and `DilutionSolves` |
| ChemSolvers.DilutionErrors | tools/chem_toolkit.py:293-296 | `ValueError` exactly when not exactly 3 of the 4 values are given |
| ChemSolvers.DilutionSolves | tools/chem_toolkit.py:298-305 | the value solved for the missing quantity satisfies `C1 V1 = C2 V2` |
| ChemSolvers.Molarity | tools/chem_toolkit.py:308-326 | `molarity_calculator`, defined by its body; its properties are `MolarityErrors` and `MolaritySolves` |
| ChemSolvers.MolarityErrors | tools/chem_toolkit.py:313-319 | the count of 2 is taken after a mass with its molar mass has replaced `moles`; a molar mass of 0 raises `ZeroDivisionError` first |
| ChemSolvers.MolaritySolves | tools/chem_toolkit.py:321-326 | the value solved for the missing quantity satisfies `moles = molarity * volume` |
| ChemSolvers.MoleConversion | tools/chem_toolkit.py:393-421 | `mole_conversion`, defined by its body; its properties are `MoleConversionErrors`, `MoleConversionRoundTrip`, `BackToMoles` and `BackFromMoles` |
| ChemSolvers.MoleConversionErrors | tools/chem_toolkit.py:400-421 | `ValueError` exactly for an unknown unit or a gram conversion without a molar mass; the source unit is checked first |
| ChemSolvers.MoleConversionRoundTrip | tools/chem_toolkit.py:393-421 | converting from `a` to `b` and back gives the value again |
| ChemSolvers.BackToMoles | tools/chem_toolkit.py:400-421 | moles converted to a unit and back are the same moles |
| ChemSolvers.BackFromMoles | tools/chem_toolkit.py:400-421 | a value converted to moles and back is the same value |
| TodoCli.Translate | tools/todo_cli.py:24 | universal newlines leave no `\r`; the mapping itself is in `TranslateBreaks` |
| TodoCli.TranslateBreaks | tools/todo_cli.py:24 | after text with no `\r`, a `\r\n` and a lone `\r` each read as exactly one `\n` |
| TodoCli.TranslateExample | tools/todo_cli.py:24 | the file text `a\r\nb\rc` reads as `a\nb\nc` |
| TodoCli.LineEnd | tools/todo_cli.py:25 | a line of `readlines` ends just after its first `\n`, or at the end of the text |
| TodoCli.SerializeSnoc | tools/todo_cli.py:37-38 | appending a task appends `task + "\n"` to the file text |
| TodoCli.Serialize | tools/todo_cli.py:30-38 | the text `save_todos` writes, defined by its body as each task followed by `\n`; its properties are `SerializeSnoc`, `SerializeText` and `LoadSerialize` |
| TodoCli.SerializeText | tools/todo_cli.py:37-38 | the written text has one line per task, each the task followed by `\n` |
| TodoCli.LoadSerialize | tools/todo_cli.py:21-38 | stripped tasks without line breaks are saved and loaded back unchanged |
| TodoCli.LoadTodos | tools/todo_cli.py:21-27 | `load_todos`, defined by its body: `[]` without a file, otherwise the stripped lines; its properties are `LoadTodosShape`, `LoadSerialize` and `SaveLoaded` |
| TodoCli.LoadTodosShape | tools/todo_cli.py:21-27 | a missing file loads as `[]`; every loaded task is stripped and has no line break |
| TodoCli.SaveLoaded | tools/todo_cli.py:21-38 | saving what was loaded changes nothing a later load sees |
| TodoCli.LoadShape | tools/todo_cli.py:25 | the loaded list has one stripped entry per line of the file |
| TodoCli.Truncated | tools/todo_cli.py:55-56 | the cut to `MAX_TASK_LEN` = 36 characters, defined by its body; properties in `AddedEntryCases` and `TruncatedAtSpace` |
| TodoCli.AddedEntry | tools/todo_cli.py:50-63 | the entry `add_task` appends, or `None` when it refuses, defined by its body; its properties are `AddedEntryCases`, `AddShortTaskOnce` and `AddTruncatedTwice` |
| TodoCli.AddedEntryCases | tools/todo_cli.py:50-63 | `add_task` refuses exactly a blank task or a case-insensitive duplicate of a stripped entry; otherwise the entry is the stripped task cut to at most 36 characters |
| TodoCli.AddShortTaskOnce | tools/todo_cli.py:58-60 | a task of at most 36 characters is refused the second time |
| TodoCli.Store.constructor | tools/todo_cli.py:77 | `main` starts from the loaded file |
| TodoCli.Store.SaveTodos | tools/todo_cli.py:30-47 | the file becomes each task followed by `\n` |
| TodoCli.Store.AddTask | tools/todo_cli.py:50-63 | returns True exactly when an entry is added, and then writes the loaded list plus that one entry; otherwise the file is unchanged |
| TodoCli.Store.MenuAdd | tools/todo_cli.py:91-101 | a blank input is refused before `add_task`; after an add, the list is reloaded from the new file; otherwise nothing changes |
| TodoCli.Store.MenuDelete | tools/todo_cli.py:103-114 | task number `k` is removed, and the file saved, exactly when `1 <= k <= len`; otherwise, and for a non-number, nothing changes |
| TodoCli.DeleteReloads | tools/todo_cli.py:106-109 | after a delete, the file reads back as the list without task `k`, the rest in order |
| TodoCli.StripSpacesAfter | tools/todo_cli.py:52 | whitespace after a stripped word is all that `strip` removes |
| TodoCli.TruncatedAtSpace | tools/todo_cli.py:52-56 | a 35-character word, a space and more text is cut to the word and the space |
| TodoCli.NotNormalized | tools/todo_cli.py:58-59 | such a cut is not in the normalised set of the entry just stored |
| TodoCli.LoadTwice | tools/todo_cli.py:21-38 | two such cuts saved read back as the stripped word twice |
| TodoCli.LoadSameTwice | tools/todo_cli.py:21-38 | a line written twice loads as its stripped form twice |
| TodoCli.LinesOfTwo | tools/todo_cli.py:25-38 | a file with one line twice reads back as that line twice |
| TodoCli.AddTruncatedTwice | tools/todo_cli.py:52-61 | as written: the same task added twice is accepted both times, and the file then holds it twice |
| TodoCli.AddFixedOnce | tools/todo_cli.py:52-61 | with the cut taken before the strip, an entry is stripped, at most 36 characters long, and refused the second time |
| TodoWeb.App.constructor | tools/todo_flask.py:173 | the app works on the shared task file |
| TodoWeb.App.AddTodo | tools/todo_flask.py:177-184 | a blank task leaves the file unchanged; any other is stripped and appended, even a duplicate, with no length limit |
| TodoWeb.App.DeleteTodo | tools/todo_flask.py:187-193 | an index in range removes exactly that entry and saves; any other index leaves the file unchanged |
| TodoWeb.AddReloads | tools/todo_flask.py:179-183 | after an add, the file reads back as the old list plus the stripped task, which is not truncated |
| TodoWeb.DeleteReloadsAt | tools/todo_flask.py:189-192 | after a delete in range, the file reads back as the old list without that entry, the rest in order |
| PasswordChecker.ValidatePasswordInput | tools/password_checker.py:4-29 | `validate_password_input`, defined by its body: `None`, not a string, empty, only whitespace, too short, in that order, each with its message; its properties are `ValidExactly` and `WhitespaceBeforeLength` |
| PasswordChecker.ValidExactly | tools/password_checker.py:14-29 | a string is valid exactly when it has at least 4 characters and is not all whitespace; a short non-blank string gets the too-short message with its length |
| PasswordChecker.WhitespaceBeforeLength | tools/password_checker.py:23-27 | a short blank string reports whitespace, not too-short |
| PasswordChecker.Score | tools/password_checker.py:48-53 | the score is at most 4; it is 4 exactly when all four criteria hold, and 0 exactly when none does |
| PasswordChecker.CheckPasswordStrength | tools/password_checker.py:32-60 | `check_password_strength`, defined by its body; its properties are `InvalidGetsMessage`, `RatingBands` and `RatingMonotone` |
| PasswordChecker.InvalidGetsMessage | tools/password_checker.py:44-46 | invalid input gets the validation message instead of a rating |
| PasswordChecker.RatingBands | tools/password_checker.py:55-60 | Strong exactly when all four criteria hold, Medium exactly at 3, Weak exactly at 2 or less |
| PasswordChecker.RatingMonotone | tools/password_checker.py:48-60 | satisfying more criteria never lowers the score or the rating |
| PasswordChecker.ValidExamples | tests/test_password_checker.py:17-52 | `password123` and a 4-character password are valid |
| PasswordChecker.InvalidExamples | tests/test_password_checker.py:23-58 | `None`, a non-string, `""` and `"   "` get their own messages |
| PasswordChecker.TooShortExample | tests/test_password_checker.py:41-46 | `"ab"` is too short, and the message names the minimum 4 |
| PasswordChecker.WeakExamples | tests/test_password_checker.py:64-72 | `password` and `pass` are Weak |
| PasswordChecker.MediumExample | tests/test_password_checker.py:74-77 | `Password` is Medium |
| PasswordChecker.StrongExample | tests/test_password_checker.py:79-82 | `Password1` is Strong |
| PasswordChecker.RejectedExample | tests/test_password_checker.py:99-102 | a blank password gets the whitespace message instead of a rating |
| Pomoban.At | tools/pomoban.py:22 | the status at a position of the flow has that index |
| Pomoban.Moved | tools/pomoban.py:21-25 | a move exists exactly when the new index lies in 0..2, and it is one step in the given direction |
| Pomoban.MovedInverse | tools/pomoban.py:21-25 | forward and back are inverse steps, neither end can be passed, and TODO -> DOING -> DONE is the forward flow |
| Pomoban.Insert | tools/pomoban.py:29-32 | blank text inserts nothing; other text is inserted unstripped under the next id, in TODO with 0 pomodoros and today's date, every other row kept |
| Pomoban.SetStatus | tools/pomoban.py:27 | only the addressed row's status changes; text, pomodoros and date stay |
| Pomoban.Credit | tools/pomoban.py:34-36 | only that row's count goes up, by exactly one |
| Pomoban.Below | tools/pomoban.py:17-19 | the ids of a status below a bound, strictly ascending, and exactly those |
| Pomoban.Column | tools/pomoban.py:17-19 | a column lists exactly the rows of its status, by ascending id |
| Pomoban.Move | tools/pomoban.py:21-27 | `move_task` on the table, defined by its body; its properties are `MoveBetweenColumns` and `Board.MoveTask` |
| Pomoban.MoveBetweenColumns | tools/pomoban.py:21-27 | a task moved forward leaves its column for the next, and moving it back restores the table |
| Pomoban.Tick | tools/pomoban.py:56-61 | a running timer with time left loses one second and stops on reaching 0; otherwise nothing changes |
| Pomoban.IdleStays | tools/pomoban.py:56-65 | a stopped timer, or one at 0, never changes and credits nothing |
| Pomoban.FullRun | tools/pomoban.py:53-65 | a started timer reaches 0 after exactly `time_left` passes, stops, and credits the active task exactly once |
| Pomoban.PadTwoValue | tools/pomoban.py:69 | a two-digit field reads back as its value |
| Pomoban.ClockText | tools/pomoban.py:68-69 | the `MM:SS` text of `draw_big_clock`, defined by its body; its properties are `ClockTextValue` and `ClockExamples` |
| Pomoban.ClockTextValue | tools/pomoban.py:68-69 | below 100 minutes the clock is `MM:SS` and reads back as the time left |
| Pomoban.Clamped | tools/pomoban.py:104-105 | after the reload the row is clamped into a non-empty column, the column kept |
| Pomoban.Navigate | tools/pomoban.py:140-149 | right and left wrap the column modulo 3 and reset the row to 0; up and down move one row only inside the column |
| Pomoban.NavigateInColumn | tools/pomoban.py:140-149 | up and down keep the row inside the column, and right then left comes back to the same column |
| Pomoban.Selected | tools/pomoban.py:159-166 | the selected id exists exactly when the row is inside the column |
| Pomoban.StartStop | tools/pomoban.py:164-168 | `s` acts only in the DOING column on a task: it sets the active task and toggles running, and stopping resets the clock to 1500 |
| Pomoban.StopThenStart | tools/pomoban.py:164-168 | stopping and starting again gives a full pomodoro for that task |
| Pomoban.StartAfterCompletionStalls | tools/pomoban.py:164-168 | after a pomodoro has run out, one `s` marks the timer running at 00:00, and no later pass changes or credits anything |
| Pomoban.Board.constructor | tools/pomoban.py:49-51 | the globals start with the timer stopped at 1500 with no task, and the cursor at the first row of TODO |
| Pomoban.Board.MoveTask | tools/pomoban.py:21-27 | the table becomes `Move` of the old table; timer and cursor are unchanged |
| Pomoban.Board.AddNewTask | tools/pomoban.py:29-32 | the table becomes `Insert` of the old table; timer and cursor are unchanged |
| Pomoban.Board.AddPomodoro | tools/pomoban.py:34-36 | the table becomes `Credit` of the old table; timer and cursor are unchanged |
| Pomoban.Board.TimerStep | tools/pomoban.py:56-65 | the timer becomes `Tick` of the old timer, and the active task is credited exactly on the pass reaching 0 |
| Pomoban.Board.HandleKey | tools/pomoban.py:102-172 | one pass of `main`: the clamp after the reload, then the key: quit, navigation, add, move forward or back, or start/stop with its warning outside DOING |
| Pomoban.Board.Act | tools/pomoban.py:150-172 | the keys that change the table or the timer, on the selected row of the current column |
| Pomoban.ClockExamples | tools/pomoban.py:68-69 | 1500 seconds show as `25:00` and 0 as `00:00` |
| PortWatcher.Matching | tools/port_watcher.py:119-139 | the wanted ports of a range: inside it, strictly ascending, and exactly the ports whose answer is wanted |
| PortWatcher.MatchingSplit | tools/port_watcher.py:119-139 | every port of the range lands in exactly one of the busy and free lists |
| PortWatcher.MatchingAll | tools/port_watcher.py:119-139 | listing both kinds lists every port of the range |
| PortWatcher.MatchingStep | tools/port_watcher.py:119-139 | the last port of a range adds one entry exactly when its kind is wanted |
| PortWatcher.ScanPorts | tools/port_watcher.py:78-146 | the sweep loop returns the busy and free ports in order, and lists in the table exactly the wanted ones unless verbose |
| PortWatcher.Decide | tools/port_watcher.py:450-487 | the documentation flags win in order; `-p` (non-zero) checks one port in 1..65535; otherwise both ends must lie in 1..65535 with start <= end, each failure with its own message and exit code 1; `-a` shows both, `-f` only free, the default only busy |
| PortWatcher.DefaultArgs | tools/port_watcher.py:413-480 | with no options 8000..9000 is swept and busy ports are listed |
| PortWatcher.Chunks | tools/port_watcher.py:169-170 | lines of one to five ports, all but the last exactly five, `ceil(n / 5)` of them |
| PortWatcher.ChunksFlatten | tools/port_watcher.py:169-171 | the lines together are the busy ports in order, each once |
| PortWatcher.Summary | tools/port_watcher.py:148-183 | the total is busy plus free; no busy port, up to 20 five to a line, or the first three and the count; recommendations exactly when some but not all ports are busy |
| PortWatcher.RecommendAfterScan | tools/port_watcher.py:179 | after a sweep, recommendations appear exactly when the range holds both a busy and a free port |
| FinanceTracker.LoadData | tools/finance_tracker.py:16-42 | no file, an unreadable file, a missing key, an array or a string without both key names give two empty lists; a key whose value is not a list is reset alone; a number, boolean or null, or an array or string holding both key names, raise (`None`) |
| FinanceTracker.LoadNonObjectExamples | tools/finance_tracker.py:22-27 | `[]` and `""` load as empty data; a number and `["transactions", "goals"]` raise |
| FinanceTracker.LoadSaved | tools/finance_tracker.py:16-82 | loading what was saved gives the same data |
| FinanceTracker.AllInClass | tools/finance_tracker.py:107 | true exactly when every character is a letter, a digit or whitespace |
| FinanceTracker.ValidCategory | tools/finance_tracker.py:105-107 | `^[a-zA-Z0-9\s]+$`: at least one character, and every character a letter, a digit or whitespace |
| FinanceTracker.CategoryJoin | tools/finance_tracker.py:105-107 | two valid categories joined by a space are valid |
| FinanceTracker.CategoryExamples | tools/finance_tracker.py:105-107 | `Food` and `Gas 24` are accepted; `""` and `Food!` are not |
| FinanceTracker.KindOf | tools/finance_tracker.py:123 | exactly `income` and `expense` are types |
| FinanceTracker.ReadKind | tools/finance_tracker.py:122-126 | the loop stops at the first line that names a type after `.lower().strip()`, every earlier line naming none |
| FinanceTracker.ReadFirst | tools/finance_tracker.py:122-126 | lines are read up to and including the first one that parses |
| FinanceTracker.ReadUntil | tools/finance_tracker.py:139-151 | the description and category loops stop at the first stripped line accepted, every earlier one refused |
| FinanceTracker.ReadCleaned | tools/finance_tracker.py:139-151 | lines are read until one, cleaned, is accepted, every earlier cleaned line refused |
| FinanceTracker.GetValidInput | tools/finance_tracker.py:96-103 | the first accepted stripped line of at most `max_attempts`; after that many refusals `ValueError` with its message |
| FinanceTracker.Attempts | tools/finance_tracker.py:98-103 | the first accepted cleaned line of at most `max_attempts`, or the error after that many refusals, or the end of the input |
| FinanceTracker.FirstNamed | tools/finance_tracker.py:239-240 | the position of the first goal with the name, every earlier goal named otherwise |
| FinanceTracker.Upserted | tools/finance_tracker.py:239-248 | the goals after `add_goal`, defined by its body; its properties are `UpsertFinds`, `UpsertTwice` and `UpsertKeepsDistinct` |
| FinanceTracker.UpsertFinds | tools/finance_tracker.py:239-247 | the name is then found where it was, or at the new end, with the new amounts; a goal is added only when the name was absent; the other goals are untouched |
| FinanceTracker.UpsertTwice | tools/finance_tracker.py:239-247 | a second update of the same goal only replaces the amounts of the first |
| FinanceTracker.UpsertKeepsDistinct | tools/finance_tracker.py:239-247 | distinct goal names stay distinct |
| FinanceTracker.InMonth | tools/finance_tracker.py:174 | exactly the transactions whose date starts with the month, each as many times as in the list, none added |
| FinanceTracker.InMonthAppend | tools/finance_tracker.py:174 | the filter keeps list order: it maps a concatenation to the concatenation of the filtered parts |
| FinanceTracker.InMonthSingle | tools/finance_tracker.py:174 | a single transaction is kept exactly when its date starts with the month |
| FinanceTracker.InMonthAll | tools/finance_tracker.py:174 | when every date is in the month the filter keeps the whole list in order, and when none is it keeps nothing |
| FinanceTracker.LexTotal | tools/finance_tracker.py:197 | string order is total |
| FinanceTracker.LexTrans | tools/finance_tracker.py:197 | string order is transitive |
| FinanceTracker.Insert | tools/finance_tracker.py:197 | inserting into a newest-first list keeps it newest first and adds exactly that transaction |
| FinanceTracker.BelowHead | tools/finance_tracker.py:197 | after the head of a newest-first list, the rest with an older transaction stays no newer than the head |
| FinanceTracker.TailBelowHead | tools/finance_tracker.py:197 | everything after the head of a newest-first list is no newer than it |
| FinanceTracker.AboveAll | tools/finance_tracker.py:197 | a transaction newer than the head is newer than the whole list |
| FinanceTracker.ConsSorted | tools/finance_tracker.py:197 | a transaction no older than all of a newest-first list can lead it |
| FinanceTracker.SortDesc | tools/finance_tracker.py:197 | `sorted(..., key=date, reverse=True)` is newest first and a permutation |
| FinanceTracker.Recent | tools/finance_tracker.py:197 | the first five of the transactions sorted newest first, defined by its body; its property is `RecentAreNewest` |
| FinanceTracker.RecentAreNewest | tools/finance_tracker.py:197 | the recent list holds up to five transactions, newest first, and nothing left out is newer than anything shown |
| FinanceTracker.Tracker.constructor | tools/finance_tracker.py:10-14 | the tracker starts from what `load_data` returns, for a document on which it does not raise |
| FinanceTracker.Tracker.AddTransaction | tools/finance_tracker.py:160-166 | the record is appended; the goals are unchanged |
| FinanceTracker.Tracker.AddGoal | tools/finance_tracker.py:239-247 | the goal is updated by name, or appended; the transactions are unchanged |
| Barcode.RemoveDashes | tools/barcode_generator.py:49 | `replace('-', '')` leaves no dash, adds no character, and leaves dash-free text unchanged |
| Barcode.RemoveDashesAppend | tools/barcode_generator.py:49 | dropping dashes works piecewise over concatenation |
| Barcode.UpperRemoveDashes | tools/barcode_generator.py:49 | dropping dashes and upper-casing can be done in either order |
| Barcode.NormalizeType | tools/barcode_generator.py:49 | the normalised type name has no dash and no small letter |
| Barcode.NormalizeIdempotent | tools/barcode_generator.py:49-50 | normalising twice is normalising once |
| Barcode.NormalizeExamples | tools/barcode_generator.py:49 | `ean-13` normalises to `EAN13` |
| Barcode.ValidateData | tools/barcode_generator.py:93-112 | `_validate_data`, defined by its body; its property is `ValidateDataRules` |
| Barcode.ValidateDataRules | tools/barcode_generator.py:104-112 | EAN8, EAN13 and UPCA take exactly 8, 13 and 12 digits; the textual types any non-empty printable text; unsupported names pass; no supported type takes `""` |
| Barcode.Requirements | tools/barcode_generator.py:114-125 | `_get_requirements`, defined by its body; its property is `RequirementsKnown` |
| Barcode.RequirementsKnown | tools/barcode_generator.py:114-125 | exactly the supported types have a requirement text other than `N/A` |
| Barcode.CheckRequest | tools/barcode_generator.py:48-62 | unsupported exactly when the normalised type is not supported, and then the given name is reported; invalid data exactly when the type is supported and the data check fails, with that type's requirement text, never `N/A`; accepted exactly when the type is supported and the data valid, with the normalised type |
| Barcode.CheckRequestNormalized | tools/barcode_generator.py:49-62 | the type written normalised or not gets the same verdict |
| Barcode.CheckEan8Example | tools/barcode_generator.py:48-62 | `12345670` as `ean-8` is accepted as EAN8 |
| Barcode.CheckEmptyExample | tools/barcode_generator.py:110-111 | empty data for CODE128 is refused |
| Barcode.CheckUnsupportedExample | tools/barcode_generator.py:48-53 | the type `QR` is unsupported |
| Captcha.CharAt | tools/captcha_generator.py:18-20 | the `k`-th character of `digits`, `ascii_uppercase + digits` or `ascii_letters + digits` belongs to that class |
| Captcha.IndexIn | tools/captcha_generator.py:18-20 | every character of the class sits at some index of the alphabet |
| Captcha.AlphabetExact | tools/captcha_generator.py:18-20 | the characters that can be drawn are exactly the class of the level |
| Captcha.DefaultLength | tools/captcha_generator.py:52-61 | the default length is 4 or 5 for easy and medium, and 5 to 7 for hard |
| Captcha.LengthOf | tools/captcha_generator.py:50-63 | a given length is used as is, a negative one draws nothing, and no length gives the default |
| Captcha.Draw | tools/captcha_generator.py:63 | the text has the length asked for and only characters of the alphabet |
| Captcha.Join | tools/captcha_generator.py:84-89 | `sep.join` puts the characters at even positions and the separator between them |
| Captcha.HardDisplay | tools/captcha_generator.py:93-99 | the hard display has each character, upper at even and lower at odd positions, followed by the separator |
| Captcha.Display | tools/captcha_generator.py:68-101 | the text `_format_captcha` returns for each level, defined by its body; its properties are `DisplayLengths`, `ShownHard` and `FormatCaptcha` |
| Captcha.FormatCaptcha | tools/captcha_generator.py:68-101 | the formatting, with its loop for hard, computes `Display` with the drawn separator and noise |
| Captcha.GenerateCaptcha | tools/captcha_generator.py:39-66 | the text is `Draw` of the level and length, and the display formats it |
| Captcha.GeneratedShape | tools/captcha_generator.py:50-63 | a generated text has the requested or default length and only characters of its alphabet |
| Captcha.DisplayLengths | tools/captcha_generator.py:82-99 | easy shows `2n - 1` characters, medium `2n + 3`, hard `2n` |
| Captcha.Shown | tools/captcha_generator.py:93-99 | the characters read off a display with one separator after each |
| Captcha.AlternateCase | tools/captcha_generator.py:95-98 | the text in alternating case, upper first |
| Captcha.ShownHard | tools/captcha_generator.py:93-99 | reading the hard display gives the text in alternating case |
| Captcha.VerifyCaptcha | tools/captcha_generator.py:103-117 | `verify_captcha`, defined by its body; its properties are `VerifyProperties` and `VerifyIgnoresCase` |
| Captcha.VerifyProperties | tools/captcha_generator.py:103-117 | the check is reflexive and symmetric, and a case-sensitive match is also a case-insensitive one |
| Captcha.VerifyIgnoresCase | tools/captcha_generator.py:115-116 | ignoring case, the text typed in capitals or alternating case is accepted |
| Captcha.LowerOfAlternate | tools/captcha_generator.py:94-98 | lower-casing the alternating-case form of a text gives the same as lower-casing the text itself |
| Captcha.HardAnswerAsShown | tools/captcha_generator.py:93-117 | as written, typing what the hard display shows is accepted exactly when the text is already in alternating case |
| Captcha.HardAnswerRefused | tools/captcha_generator.py:93-99 | the text `aB` is shown as `A-b-`, and the typed `Ab` is refused |
| Captcha.MainVerifies | tools/captcha_generator.py:205-209 | the verification step of `main`: the typed line stripped, compared case-sensitively exactly at the `hard` level; defined by its body, its properties are in `MainHardAsShown` and `MainRefusesShown` |
| Captcha.MainHardAsShown | tools/captcha_generator.py:205-209 | in `main`, a hard answer whose stripped line is what the display shows is accepted exactly when the text is already in alternating case |
| Captcha.MainRefusesShown | tools/captcha_generator.py:205-209 | in `main`, the text `aB` refuses the typed `Ab` at the hard level and accepts it at the easy level |
| Captcha.ShownIsAccepted | tools/captcha_generator.py:208-209 | with the answer taken from the display, typing what is shown is accepted at every level: hard, easy, and medium with the characters between the noise marks |
| Captcha.Hint | tools/captcha_generator.py:132-141 | there is a hint exactly for `easy`, `medium` and `hard`; any other key raises `KeyError` |
| Captcha.GenerateWithHint | tools/captcha_generator.py:119-144 | the record holds the drawn text, its display, its length, the hint for that length and the difficulty; `KeyError` exactly for another name |
| Captcha.UnknownDifficulty | tools/captcha_generator.py:58-61 | an unknown difficulty is drawn and shown as hard but has no hint |
| Captcha.ClampLength | tools/captcha_generator.py:183 | `max(4, min(10, n))` lies in 4..10 and keeps any length already there |
| Captcha.CustomRequest | tools/captcha_generator.py:181-190 | the custom entry always asks for a known difficulty; an unparsable length falls back to medium with the default length |
| Resume.Occurring | tools/ai-resume-analyzer.py:31-39 | the list comprehension keeps exactly the entries that occur in the text, each as many times as in the list, none added |
| Resume.OccurringAppend | tools/ai-resume-analyzer.py:31-39 | the comprehension keeps list order: it maps a concatenation to the concatenation of the filtered parts |
| Resume.OccurringSingle | tools/ai-resume-analyzer.py:31-39 | a single entry is kept exactly when it occurs in the text |
| Resume.SkillPoints | tools/ai-resume-analyzer.py:32 | `min(4 * found, 40)`: at most 40, `4 * found` up to ten skills and 40 from ten on |
| Resume.ChecksOf | tools/ai-resume-analyzer.py:18-56 | the outcomes of the five checks on a text, defined by its body; used by `AnalyzeResume` |
| Resume.Points | tools/ai-resume-analyzer.py:20-56 | the sum of the shares of the passing checks, defined by its body; its properties are `ScoreRange`, `PointsOfChecks` and `FullScoreNoFeedback` |
| Resume.Feedback | tools/ai-resume-analyzer.py:25-56 | the feedback lines of the failing checks in order, defined by its body; its properties are `FeedbackLines` and `FullScoreNoFeedback` |
| Resume.AnalyzeResume | tools/ai-resume-analyzer.py:18-62 | the score is the capped sum of the shares of the passing checks, the skills are those found in the lower-cased text, and the feedback has the failing checks' lines in order |
| Resume.Accumulate | tools/ai-resume-analyzer.py:20-59 | the accumulation of score and feedback, check by check, gives the capped `Points` and `Feedback` |
| Resume.Check | tools/ai-resume-analyzer.py:25-56 | one check adds its share when it passes and its line when it fails |
| Resume.ScoreRange | tools/ai-resume-analyzer.py:20-59 | the shares add up to an even number of at most 100, so the cap never binds |
| Resume.PointsOfChecks | tools/ai-resume-analyzer.py:25-56 | the four fixed shares are all earned exactly when their four checks pass |
| Resume.FeedbackLines | tools/ai-resume-analyzer.py:25-56 | each line appears exactly when its check fails, the skills line below five skills; at most five lines |
| Resume.FullScoreNoFeedback | tools/ai-resume-analyzer.py:25-59 | a score of 100 leaves no feedback, and no feedback means at least 80 |
| Resume.ContainsPrefix | tools/ai-resume-analyzer.py:31 | a prefix of a substring is a substring |
| Resume.JavaInJavascript | tools/ai-resume-analyzer.py:7-31 | a text in which `javascript` is found also counts `java` |
| WordCounter.CountWords | tools/word_counter.py:11-30 | the word count is the number of `split()` words, the character count the length of the text |
| WordCounter.BlankHasNoWords | tools/word_counter.py:29 | blank text has no words |
| WordCounter.CountIgnoresLayout | tools/word_counter.py:29 | words laid out between any whitespace gaps are counted exactly once each |
| WordCounter.CountIsRuns | tools/word_counter.py:29 | the count is the number of whitespace-free runs that, between the gaps, make up the text |
| WordCounter.StripKeepsWordCount | tools/word_counter.py:29 | stripping the text first does not change the count |
| Chatbot.BotResponse | tools/chatbot.py:7-21 | `get_bot_response`, defined by its body as the reply text of `Classify` on the lower-cased message; its properties are `Classify`, `CaseInsensitive`, `Priority` and `TimeReplyEmbedsClock` |
| Chatbot.Classify | tools/chatbot.py:10-21 | the greeting is given exactly when `hello` or `hi` occurs, the fallback exactly when no keyword does |
| Chatbot.CaseInsensitive | tools/chatbot.py:8 | messages that lower-case alike get the same reply, among them the message in capitals and in small letters |
| Chatbot.Priority | tools/chatbot.py:10-21 | each reply is given exactly when its keyword occurs and every earlier one is absent |
| Chatbot.GreetingInsideWords | tools/chatbot.py:10 | `hi` is found inside words: `this` and `which time is it` get the greeting |
| Chatbot.TimeReplyEmbedsClock | tools/chatbot.py:14-15 | the time reply ends with the clock text |
| PasswordGenerator.SymbolsAreSymbolSet | tools/password_generator.py:8 | the symbol alphabet has its 14 characters |
| PasswordGenerator.ClassesDisjoint | tools/password_generator.py:5-8 | no character lies in two of the four alphabets |
| PasswordGenerator.ClassChar | tools/password_generator.py:5-8 | the `i`-th character of an alphabet belongs to it |
| PasswordGenerator.Drawn | tools/password_generator.py:10 | a comprehension draws exactly `n` characters, all from its alphabet |
| PasswordGenerator.Counts | tools/password_generator.py:10 | 3 to 5 letters of each case, 2 to 4 symbols and 2 to 4 digits |
| PasswordGenerator.Count | tools/password_generator.py:10 | a class count never exceeds the length |
| PasswordGenerator.CountAppend | tools/password_generator.py:10 | class counts add up over concatenation |
| PasswordGenerator.CountUniform | tools/password_generator.py:10 | a run from one alphabet counts fully in its class and not in the others |
| PasswordGenerator.CountPermutation | tools/password_generator.py:11 | rearranging characters keeps every class count |
| PasswordGenerator.Swap | tools/password_generator.py:11 | a swap exchanges two positions and keeps the rest |
| PasswordGenerator.Shuffled | tools/password_generator.py:11 | the shuffle keeps the length |
| PasswordGenerator.ShuffledPermutation | tools/password_generator.py:11 | the shuffle is a permutation |
| PasswordGenerator.Shuffle | tools/password_generator.py:11 | the in-place shuffle loop computes `Shuffled` of the old contents |
| PasswordGenerator.GeneratePassword | tools/password_generator.py:4-13 | the password is the shuffled draw: 10 to 18 characters, each class drawn its number of times, none outside the alphabets |
| PasswordGenerator.PasswordFacts | tools/password_generator.py:4-13 | the shuffled draw has 10 to 18 characters, the drawn class counts, and only characters of the alphabets |
| PasswordGenerator.PermutedClass | tools/password_generator.py:10-11 | every character of a rearranged draw is in one of the four alphabets |
| PasswordGenerator.CountRuns | tools/password_generator.py:10 | in four runs in drawing order, each class counts exactly its own run |
| PasswordGenerator.RunsCount | tools/password_generator.py:10 | the unshuffled list has the drawn number of each class |
| PasswordGenerator.UnshuffledCount | tools/password_generator.py:10 | the count of each class before the shuffle is the number drawn |
| PasswordGenerator.UnshuffledClasses | tools/password_generator.py:10 | every character before the shuffle is in one of the four alphabets |

## Left out

- Character classes are ASCII only. `isspace` and `\s` are `\t` to `\r`, `\x1c` to `\x1f` and the space. `isupper`, `islower`, `isdigit`, `lower` and `upper` act on ASCII letters and digits only, and every non-ASCII character is printable. Python's Unicode tables are not modelled.
- File and database I/O is not modelled:
  - the task file, the finance JSON file and the sqlite table are in-memory values;
  - the temporary file, `fsync` and `os.replace` of `save_todos` are left out;
  - the backup and restore of the finance `save_data` is left out;
  - the CSV export is left out;
  - sqlite's autoincrement ids are a `nextId` counter.
- The chemistry results are over exact reals, not floats. Rounding, `calculate_molar_mass`, `pH_calculator`, `balance_equation_info`, `display_periodic_table`, `format_output` and `main` are not part of this model. The table keeps symbols, numbers and names; the atomic weights are left out.
- ChemSolvers.IdealGasSolves, ChemSolvers.DilutionSolves, ChemSolvers.MolaritySolves and ChemSolvers.MoleConversionRoundTrip hold over exact reals. Float rounding may break them by a last-place error.
- Randomness is passed in as parameters. The `random` and `secrets` draws are index parameters, or streams of indices, reduced modulo the number of options. Their distribution is not modelled.
- PasswordGenerator.Shuffle follows the Fisher and Yates loop of `random.shuffle`, with the drawn indices as a parameter. Only the permutation matters for the properties.
- Pomoban.Column lists a column by ascending id. `SELECT id, task, status, pomos FROM tasks WHERE status = ?` has no `ORDER BY`, so SQLite does not promise an order; ascending id is the order of a plain table scan, and the model assumes it.
- The pomoban timer thread is one sequential step, `Tick` / `Board.TimerStep`. The interleavings with the key loop, the one-second sleep, the bell, the curses drawing and the big-clock glyphs are not modelled.
- Pomoban.ClockTextValue is stated only below 100 minutes. Above that, `{m:02d}` simply prints more digits.
- The Flask routes, HTML templates, JavaScript and `app.run` of the web to-do list, the chatbot and the resume analyzer are left out. Only the list and text logic behind them is modelled.
- The chatbot's `strftime` clock and date texts are parameters.
- The finance tracker:
  - `_validate_amount` (float parsing) and `_validate_date` (strptime and today's date) are not modelled; the prompts take any parsing function or acceptance predicate;
  - the sums, percentages, category totals and goal progress bars of the views are left out;
  - the `run` menu loop is left out.
- FinanceTracker.LoadData models the uncaught `TypeError` of a document that is a number, boolean or null, or an array or string holding both key names, as `None`, and no tracker is made from it: FinanceTracker.Tracker.constructor requires a document that loads. For an array, only its string elements are kept, because only they can equal a key name.
- FinanceTracker.RecentAreNewest does not state the order of transactions with the same date. Python's `sorted` is stable, and the model's insertion sort is not claimed to be.
- Resume: the keyword density `len(found) / max(wc, 1) >= 0.02` is modelled as `50 * found >= max(wc, 1)`, the same test over exact numbers.
- The barcode generator:
  - the `python-barcode` import, the class lookup, the image writer and its options, the default file name with its timestamp, and `list_formats` are left out;
  - the model stops at the checks before any drawing;
  - the library's own `get_barcode_class` runs before the data check and may fail for a name it does not know; that is not modelled.
- The port watcher:
  - `check_port` is a predicate passed in, so the TCP connect, the timeout and the socket errors are not modelled;
  - the header, the progress bar, the colours, the scan time and the speed are left out; so is the division by a scan time of 0;
  - the manual, examples and help texts are not modelled.
- Captcha.Hint states which keys exist, not the wording of each hint. The menu loop of `main` is modelled only for its custom entry (`CustomRequest`) and its verification step (`MainVerifies`).
- TodoCli: `show_todos`, the menu loop itself, and the `is_task_done` / `format_task` functions that tests/test_todo_cli.py imports are not modelled. `tools/todo_cli.py` does not define those functions.
- tools/mandelbrot_generator.py (floating-point complex iteration) and tools/derivative_tool.py (a wrapper over sympy) are not part of this model.

## Findings

| source | as written | input that shows it | evidently intended | confidence | as-written member | corrected member |
|---|---|---|---|---|---|---|
| tools/todo_cli.py:52-61 | `add_task` strips and only then cuts to 36 characters, so the stored entry can end in whitespace, and the duplicate check compares it unstripped with stripped entries | a 35-letter word `w` followed by `" b"`, added twice: both adds succeed and the file holds `w` twice | cut first, then strip, so every entry is stripped and a second add of the same task is refused | not executed | TodoCli.AddTruncatedTwice | TodoCli.AddFixedOnce |
| tools/captcha_generator.py:93-99 | the hard display alternates the case of the text, but the answer is compared case-sensitively with the original text, although the hint says to type the characters exactly as shown | the text `aB` is shown as `A-b-`; typing `Ab` is refused | compare the answer with the text as shown (or ignore case) | not executed | Captcha.HardAnswerRefused | Captcha.ShownIsAccepted |
