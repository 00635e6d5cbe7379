# Inventory tool: a Dafny model

`pyCharm/ind.py` is an interactive inventory tool. It keeps a list of goods,
where each good is a record with a name, a shop and a price. A loop reads
commands at a `>>> ` prompt:

- `add` appends a good and re-sorts the list by name;
- `list` prints a table;
- `select <shop>` prints the goods of one shop;
- `save <file>` writes the list as JSON;
- `load <file>` reads a JSON list back, but only if every item passes a JSON
  Schema check;
- `help` prints a summary;
- `exit` stops the loop.

This project models that logic and proves the properties the program relies
on.

Each module follows one part of the program:

| module | file | models |
|---|---|---|
| `Json` | json.dfy | JSON values and `dict.get` with a default |
| `Messages` | messages.dfy | the lines the tool prints, one constructor per message |
| `Schema` | schema.dfy | the `schema` constant and the part of JSON Schema validation it uses |
| `Text` | text.dfy | `str.lower()`, the whitespace of `str.split()`, and Python's `str` ordering |
| `Store` | store.dfy | the sort key `item.get('name', '')` and a stable reference sort |
| `Select` | select.dfy | `select_goods` |
| `Load` | load.dfy | the validation loop and accept rule of `load_goods` |
| `Display` | display.dfy | the line structure of `display_goods` |
| `Commands` | commands.dfy | lowercasing and command recognition in `main` |
| `Inventory` | session.dfy | the store, one turn of the loop, the loop as a fold and as a method, and three scenarios |

The pure parts of the program are functions and lemmas:

- the schema predicate;
- building the record in `get_goods`;
- the prefix and split tests of dispatch.

The imperative parts are methods with loops, proved against those functions:

- `select_goods`, `load_goods` and `display_goods` each have a loop;
- the store is the field `goods` of the class `Inventory.Session`;
- `main`'s `while True` loop is the `Run` method. It is proved equal to
  `Inventory.RunFrom`, a fold of one-turn `Inventory.Transition` over the
  recognised lines, and the lemmas about `RunFrom` state when the loop stops.

The model follows the code, not a reading of its intent, in three places:

- A rejected `load` assigns `None` to the store, because the assignment at
  `pyCharm/ind.py:192` is unconditional. The store is therefore not left as it
  was. After that, `add` and `select` crash, and `list` prints the "empty"
  notice.
- A `select` that matches nothing prints two notices. Selection prints "no such
  shop", and then `display_goods(None)` prints "list is empty".
- The `shop` argument of `select` is lowercased along with the rest of the line.
  A good whose stored shop name contains a capital letter is therefore never
  selected by a typed command (`Commands.CapitalisedShopNeverSelected`).

Python's `list.sort` (Timsort) is not modelled step by step. Instead:

- `Store.SortByName` is a stable insertion sort, used as the reference;
- `Store.StableSortUnique` proves that any arrangement that is both sorted by
  name and stable equals it;
- so the reference sort gives the same result as any correct stable sort.

## Model

| member | source | states |
|---|---|---|
| Json.Get | pyCharm/ind.py:64-66 | `dict.get(key, default)`: the stored value when the key is present, otherwise the default; its consequences are the `Store.NameKeyOfGood` and `Select.MatchesGood` rows |
| Text.LowerChar | pyCharm/ind.py:145 | `str.lower()` on one character: ASCII and basic Cyrillic capitals shift to their small letters, everything else is unchanged; `Text.LowerIsLowercase` is proved about it |
| Text.Lower | pyCharm/ind.py:145 | `str.lower()` on a line: the result is as long as the input and each of its characters is already lowercase (lowering it changes nothing) |
| Text.SkipSpaces | pyCharm/ind.py:178 | drops the leading whitespace run: the result is a suffix that is empty or starts with a non-space, and everything dropped is whitespace |
| Text.LexLe | pyCharm/ind.py:159 | Python's `<=` on `str`, code point by code point; it is total, transitive and antisymmetric (rows below) |
| Store.NameKey | pyCharm/ind.py:159 | the key `item.get('name', '')`; `Store.NameKeyOfGood` ties it to the stored name |
| Store.Ins | pyCharm/ind.py:159 | insertion of one good before the first good of no smaller name; the result is a permutation of the good plus the list |
| Store.SortByName | pyCharm/ind.py:159 | the reference stable sort by name; its result is a permutation of its input, sorted (`Store.SortByNameSorted`) and stable (`Store.SortByNameStable`) |
| Inventory.Added | pyCharm/ind.py:156-159 | append, then sort when longer than one; `Inventory.AddedOrdered` states what that means |
| Select.Matches | pyCharm/ind.py:87 | the test `shop == good.get('shop', shop)`; `Select.MatchesGood` reads it for a valid good |
| Select.Selected | pyCharm/ind.py:86-89 | the goods that pass the test, in store order; the `Select.Selected*` lemmas below state its contents and order |
| Load.Reports | pyCharm/ind.py:119-124 | one OK/ERROR line per item in index order; there are as many lines as items |
| Load.ValidationReport | pyCharm/ind.py:118-130 | banner, per-item reports and verdict; `Load.ReportAtEachIndex` states its shape |
| Load.LoadResult | pyCharm/ind.py:127-131 | the parsed list when no item failed, otherwise nothing; `Load.LoadAllOrNothing` states both directions |
| Display.BorderText | pyCharm/ind.py:43-48 | the border format filled with dash runs of 4, 30, 20 and 8; `Display.BorderShape` states its shape |
| Display.RowOf | pyCharm/ind.py:61-67 | one row: index, then `name`, `shop` and `price` with defaults `''`, `''` and 0; `Display.RowOfGood` is proved about it |
| Display.TableLines | pyCharm/ind.py:41-72 | the table for a non-empty store and the empty notice otherwise; `Display.TableShape` states its shape |
| Commands.Dispatch | pyCharm/ind.py:148-203 | the `if`/`elif` chain on the lowercased line, in source order; the `Commands` lemmas below state what each branch accepts |
| Commands.ParseCommand | pyCharm/ind.py:145 | lowercase the line, then recognise it |
| Schema.Conforms | pyCharm/ind.py:121 | `validate(item, schema)` for the `type` and `properties` keywords; `Schema.GoodsSchemaIsGood` states what it accepts for the tool's schema |
| Text.IsSpace | pyCharm/ind.py:178 | the whitespace class `str.split()` separates on, at lines 178 and 187; `Text.SkipSpacesPrefix` and the ensures of `Text.SkipSpaces` state what skipping it gives |
| Display.Rows | pyCharm/ind.py:60-68 | the `enumerate(goods, 1)` row loop; `Display.RowsAt` states one row per good, numbered from the start index |
| Load.Report | pyCharm/ind.py:121-124 | the OK/ERROR choice for one item; `Load.ReportsAt` places it at the item's index |
| Schema.GoodsSchemaIsGood | pyCharm/ind.py:9-16 | an item validates exactly when it is an object whose `price`, if present, is a number and whose `name` and `shop`, if present, are strings |
| Schema.EmptyObjectIsGood | pyCharm/ind.py:9-16 | no key is required: the empty object validates |
| Schema.ExtraKeyIrrelevant | pyCharm/ind.py:9-16 | adding or changing a key other than the three listed ones never changes the verdict |
| Schema.NonObjectRejected | pyCharm/ind.py:10 | a value that is not an object fails validation |
| Text.LowerIsLowercase | pyCharm/ind.py:145 | lowering is idempotent, so a lowered line is lowercase |
| Text.SkipSpacesPrefix | pyCharm/ind.py:178 | skipping the whitespace in front of text that does not start with whitespace returns that text |
| Text.LexLeTotal | pyCharm/ind.py:159 | any two names are comparable under `str` ordering |
| Text.LexLeTransitive | pyCharm/ind.py:159 | `str` ordering is transitive |
| Text.LexLeAntisymmetric | pyCharm/ind.py:159 | names ordered both ways are equal |
| Store.NameKeyOfGood | pyCharm/ind.py:159 | for a valid good, the sort key is its stored name, or `''` when it has none |
| Store.InsSorted | pyCharm/ind.py:159 | inserting into a sorted store keeps it sorted |
| Store.InsStable | pyCharm/ind.py:159 | insertion puts the new good before every good of the same name and leaves the order of all other goods as it was |
| Store.SortByNameSorted | pyCharm/ind.py:159 | the sorted store is ascending by name |
| Store.SortByNameStable | pyCharm/ind.py:159 | sorting keeps goods of equal name in their previous relative order |
| Store.StableSortUnique | pyCharm/ind.py:159 | two arrangements that are both sorted and agree on every equal-name group are the same sequence |
| Store.StableSortIsSortByName | pyCharm/ind.py:159 | every sorted, stable rearrangement of a store is the reference sort's result |
| Store.SortByNameAllGoods | pyCharm/ind.py:159 | sorting keeps every good valid |
| Inventory.NewGood | pyCharm/ind.py:29-33 | the record built from the typed answers validates, sorts under the typed name, and holds the typed shop and price |
| Inventory.AddedOrdered | pyCharm/ind.py:156-159 | after `add`, the store is a permutation of the old store plus the new good, sorted by name when longer than one, with equal names in their previous order |
| Inventory.AddedAllGoods | pyCharm/ind.py:153-159 | `add` keeps every good in the store valid |
| Inventory.Session.AddGood | pyCharm/ind.py:156-159 | appends the new good and sorts when there is more than one; raises on a `None` store |
| Select.MatchesGood | pyCharm/ind.py:87 | a valid good is selected exactly when it has no `shop` key or has exactly that shop |
| Select.SelectedAppend | pyCharm/ind.py:86-89 | selecting from a concatenation selects from each part in order, so the selection keeps store order |
| Select.SelectedCount | pyCharm/ind.py:86-89 | every occurrence of a matching good is kept and no other good is |
| Select.SelectedMember | pyCharm/ind.py:86-89 | a good is in the selection exactly when it is in the store and matches |
| Select.SelectedEmpty | pyCharm/ind.py:86-92 | the selection is empty exactly when no good matches |
| Select.SelectGoods | pyCharm/ind.py:75-96 | the counter equals the number of matching goods; nothing is returned exactly when it is 0, and then the notice is printed; otherwise the matches are returned in store order |
| Inventory.SelectionLines | pyCharm/ind.py:172-174 | an empty selection prints exactly the "no such shop" and "list is empty" notices |
| Load.CountInvalid | pyCharm/ind.py:117-126 | the error count is at most the item count, and is 0 exactly when every item validates |
| Load.ReportsAt | pyCharm/ind.py:119-124 | item i gets exactly one report line, at position i, and it is OK or ERROR according to validation |
| Load.CountInvalidIsCardinality | pyCharm/ind.py:117-126 | the error count is the number of indices whose item fails validation |
| Load.ReportAtEachIndex | pyCharm/ind.py:118-130 | the output is the banner, one line per item in index order (ERROR exactly at the failing indices, OK elsewhere), then the verdict |
| Load.LoadAllOrNothing | pyCharm/ind.py:127-131 | the parsed list is returned unchanged exactly when every item validates, and nothing is returned exactly when some item fails |
| Load.BadPriceRejects | pyCharm/ind.py:119-128 | one item with a non-numeric price rejects the whole file, is reported as an error at its index, and the verdict is "not loaded" |
| Load.LoadGoods | pyCharm/ind.py:117-131 | the loop's error count is the number of failing items; it returns the list exactly when all items validate; it prints the banner, the per-item reports and the verdict |
| Display.BorderShape | pyCharm/ind.py:43-48 | the border line is five `+` joined by dash runs of 6, 32, 22 and 10, which is 75 characters |
| Display.RowsAt | pyCharm/ind.py:60-68 | there is one row per good, and the good at position i is numbered first + i |
| Display.TableShape | pyCharm/ind.py:41-69 | a non-empty store prints n + 4 lines: border, header, border, rows numbered 1..n in store order, border |
| Display.RowOfGood | pyCharm/ind.py:60-66 | a valid good's row carries its index and its name, or `''` when it has none |
| Display.DisplayGoods | pyCharm/ind.py:41-72 | prints that table, and prints the "list is empty" notice exactly when the argument is `None` or empty |
| Commands.KeywordsExact | pyCharm/ind.py:145-194 | `exit`, `add`, `list` and `help` are recognised exactly when the lowercased line is that word |
| Commands.SelectArgument | pyCharm/ind.py:165-169 | after `select `, the argument is all the text that follows the first space |
| Commands.SaveBranch | pyCharm/ind.py:176-180 | a line starting with `save ` reaches the `save` branch, whose argument is the text after the whitespace run |
| Commands.LoadBranch | pyCharm/ind.py:185-189 | a line starting with `load ` reaches the `load` branch, whose argument is the text after the whitespace run |
| Commands.FileArgument | pyCharm/ind.py:176-189 | `save` or `load`, then whitespace, then a name that does not start with whitespace: the argument is that name |
| Commands.FileArgumentShape | pyCharm/ind.py:176-189 | conversely, a recognised `save` or `load` line is the keyword, a whitespace run starting with a space, and then the argument |
| Commands.FileArgumentMissing | pyCharm/ind.py:176-189 | `save` or `load` followed only by whitespace has no file name (`parts[1]` raises) |
| Commands.UnknownExactly | pyCharm/ind.py:202-203 | a line is reported as an unknown command exactly when it is none of the recognised forms |
| Commands.SelectShopIsLowercase | pyCharm/ind.py:145-169 | the `select` argument is always lowercase |
| Commands.CapitalisedShopNeverSelected | pyCharm/ind.py:87 | a good whose stored shop name is not lowercase is never selected by a typed `select` |
| Inventory.Transition | pyCharm/ind.py:143-203 | one turn of the loop keeps every stored good valid |
| Inventory.OnlyAddAndLoadChangeStore | pyCharm/ind.py:161-203 | `list`, `help`, `select`, `save`, unknown lines, `exit`, and the `select` and missing-file-name crashes leave the store unchanged |
| Inventory.AddOnNoneCrashes | pyCharm/ind.py:156 | `add` on a `None` store crashes (`None.append`), prints nothing further, and leaves the store `None` |
| Inventory.TransitionStatus | pyCharm/ind.py:143-203 | the loop stops exactly on `exit`; it crashes exactly on `add` or `select` with a `None` store, and on a missing file name |
| Inventory.ExitLine | pyCharm/ind.py:145-149 | a typed line stops the loop exactly when it lowercases to `exit` |
| Inventory.AddTransition | pyCharm/ind.py:151-159 | `add` on a list continues with a permutation of the old store plus the new good, sorted and stable |
| Inventory.LoadTransition | pyCharm/ind.py:185-192 | `load` makes the store the parsed list exactly when every item validates, and `None` exactly when one fails, whatever the store held |
| Inventory.EmptySelectionTransition | pyCharm/ind.py:165-174 | a `select` that matches nothing prints the two notices and nothing else |
| Inventory.Session.constructor | pyCharm/ind.py:140 | the store starts as the empty list |
| Inventory.Session.Execute | pyCharm/ind.py:147-203 | running the branch for a recognised command gives the store, status and output of one turn |
| Inventory.Parsed | pyCharm/ind.py:145 | definition: each typed line lowercased and recognised, with what its command reads, one turn per line; `Inventory.ParsedExit` states what it means for `exit` |
| Inventory.ParsedExit | pyCharm/ind.py:145-149 | a recognised line is `exit` exactly when it lowercases to `exit` |
| Inventory.RunFrom | pyCharm/ind.py:143-203 | the loop as a fold of `Transition` over the turns, until a turn exits or crashes; it keeps the store valid and reads at most the command lines it is given |
| Inventory.RunFromStep | pyCharm/ind.py:143-147 | the loop at a position runs one turn there, then stops if that turn stopped and otherwise goes on from the next position |
| Inventory.RunFromConsumed | pyCharm/ind.py:143 | the loop reads every command line unless it stops, and it stops only after reading at least one command line |
| Inventory.RunFromExit | pyCharm/ind.py:148-149 | the loop ends in `Exited` exactly when the last turn read is `exit`, and no earlier turn read is `exit` |
| Inventory.RunFromCrash | pyCharm/ind.py:151-192 | a crash happens only on an `add`, a `select`, or a `save`/`load` without a file name, and that is the last command line read |
| Inventory.RunFromAdvance | pyCharm/ind.py:143-203 | once one more turn has run, the rest of the loop goes on from the state that turn left |
| Inventory.RunFromLines | pyCharm/ind.py:143-149 | on typed command lines: all of them are read unless the loop stops; it stops in `Exited` exactly when the last line read lowercases to `exit`; no earlier line read does |
| Inventory.Session.Run | pyCharm/ind.py:143-203 | the final store, status, output and number of command lines read (the `>>> ` lines; the answers `add` reads are part of each `Input`) are those of `RunFrom` from the starting store; the loop stops in `Exited` exactly when the last line read lowercases to `exit`, and it never reads past an `exit` |
| Inventory.ListThenExitRun | pyCharm/ind.py:143-163 | `list`, `EXIT`, `add` from an empty store prints the empty notice, stops after two lines with the store still empty, and never reaches the `add` |
| Inventory.ListThenExit | pyCharm/ind.py:143-163 | scenario: the same three lines fed to `Session.Run` give that result |
| Inventory.SortTwo | pyCharm/ind.py:159 | `Bread` then `Apple` sort to `Apple`, `Bread` |
| Inventory.AddAppleAfterBread | pyCharm/ind.py:151-159 | adding `Apple` to a store holding `Bread` puts `Apple` first |
| Inventory.ListTwo | pyCharm/ind.py:161-163 | listing two valid goods prints six lines, with the rows numbered 1 and 2 in store order |
| Inventory.AddTwiceThenList | pyCharm/ind.py:151-163 | scenario: add Bread, add Apple, list; row 1 is Apple and row 2 is Bread |
| Inventory.RejectedLoadThenAdd | pyCharm/ind.py:185-192 | scenario: once a load is rejected, the next `add` crashes |

## Left out

- Console I/O (`input`, `print`, `sys.stdout.write`, `sys.stderr.write`) is not
  modelled. What the tool prints is a sequence of `Messages.Line` values. Which
  stream each line goes to is noted on its constructor. The Russian message
  texts are not reproduced.
- The text of `ValidationError`, printed after each ERROR line, is left out, as
  are the internals of `jsonschema.validate`. Validation is the three-key type
  check in `Schema`.
- The reading done by `get_goods` becomes a parameter: an `Entry` holding the
  typed name, the typed shop and the price `float()` produced. A `float()`
  failure on bad input is left out. The NaN and infinite values that
  `float("nan")` and `float("inf")` give are not represented, since the price
  is a `real`. The same holds for `load`: `json.load` accepts `NaN`,
  `Infinity` and `-Infinity`, the schema treats them as numbers, and
  `Json.Num(real)` cannot hold them, so such a file is not modelled.
- File access is left out:
  - opening files;
  - `json.dump` for `save`, which changes nothing in the store;
  - `json.load` for `load`, whose parsed list is passed in as `loaded`;
  - a file that is missing or not valid JSON.
- A top-level JSON value other than a list is left out. `load_goods` would
  iterate the keys of an object or the characters of a string, and
  `enumerate` raises `TypeError` on a number, a boolean or `null`.
- Table formatting is left out: padding, centring, and how numbers render in a
  table row. A row carries its four cell values. The Python default price `0`
  is an `int`, and is written there as the number 0.
- `Text.LowerChar` lowers only ASCII and the basic Cyrillic block (U+0400 to
  U+042F). Every other character is left unchanged, which is weaker than full
  Unicode `str.lower()`. Full `str.lower()` can also lengthen a string (`İ`,
  U+0130, becomes the two code points `i` and U+0307), so `Text.Lower`'s
  same-length fact holds only for the characters the model lowers.
- Crashes become the status `Crashed` with no further output, and the
  traceback is left out. They are the `IndexError` of `parts[1]`, the
  `AttributeError` of `None.append` in `add`, and the `TypeError` of iterating
  `None` in `select`.
- Inventory.Session.Run: runs over a finite sequence of input lines and stops
  when the sequence runs out. It does not model end of input raising
  `EOFError`. Its lemmas say which command kind crashed
  (`Inventory.RunFromCrash`), but not the store at that turn. That store is
  given only by the fold itself.
- Store.SortByName: takes the place of Timsort, which is not modelled step by
  step. `Store.StableSortUnique` shows that every stable sort by name gives the
  same result.
- Inventory.Session.AddGood: reassigns the `goods` field with the new sequence
  instead of updating a list in place. There is no aliasing of the list in the
  program.
