# Invoice generator: a verified model

This project models the core of a small invoice generator. A desktop form collects a customer, an order date and two quantities. The `InvoiceGenerator` class then does the following:

- loads a Word template and fills its `{{key}}` placeholders;
- files the result under `output_dir/YYYY/YYYY-MM/WW/` using today's date;
- names the file `<customer>-<NNN>.docx`, where `NNN` is an invoice number derived from the year directory's listing;
- keeps the known customers in a table with unique names.

The model covers these parts of `invoice_generator.py`:

- **Placeholder engine** (`replace_placeholders`), in module `Placeholders`.
  - `Strings.ReplaceAll` gives Python's `str.replace` semantics: non-overlapping, leftmost-first.
  - `Fill` is the per-node reference function. It applies the mapping's keys in insertion order.
  - The `Document` class holds the paragraph texts in an `array` and the tables' cell texts in a field. `ReplacePlaceholders` rewrites them with nested loops that are proved against `Fill`.
  - The form puts `month` and `day` in the dictionary as integers, and `str.replace` raises `TypeError` on an integer. Values are therefore `Text` or `Number`, and a `Number` whose token is present makes the fill return `None`.
- **Week of month** (`get_week_of_month`), in module `Calendar`.
- **Invoice number** (`generate_invoice_number`), in module `Numbering`.
  - The directory listing is an `Option<seq<string>>`, where `None` means the directory is missing.
  - The month directories created by `os.makedirs` are modelled too.
- **Paths and file name** built by `generate_invoice`, in module `Generator`.
- **Placeholder dictionary** built by `generate_invoice`, in module `InvoiceData`. Python dictionaries are modelled as insertion-ordered entry sequences in module `Dict`.
- **The whole of `generate_invoice`**, as a method in module `InvoiceGenerator`.
- **Customer table** (`add_customer`, `get_customers`), in module `Customers`: a class holding a duplicate-free sequence of names.
- Support modules: `Decimal` for `str(n)` and the `02d`/`03d` formats, and `Wrappers` for `Option`.

Consequences of the code that the model proves:

- **Invoice numbers repeat.** The number counts the `.docx` files directly inside the year directory. Invoices are saved two levels deeper, so a year directory written only by this program yields 1 on every run (`Generator.OwnLayoutGivesOne`, `Generator.ConsecutiveRunsShareNumber`).
- **Week range.** The formula gives 1 to 6, and the 1st of a month that starts on a Sunday is already in week 2.
- **`{{month}}` and `{{day}}` tokens raise.** A template node containing either token makes generation fail, whatever else the node holds: the keys replaced before them cannot remove their tokens (`InvoiceGenerator.MonthTokenRaises`, `InvoiceGenerator.DayTokenRaises`).

## Model

| member | source | states |
|---|---|---|
| Strings.Contains | invoice_generator.py:109 | definition of the `in` test, scanning from the left; no contract of its own, `Strings.ContainsIffOccurs` relates it to occurrences |
| Strings.EndsWith | invoice_generator.py:130 | definition of `str.endswith`; no contract of its own, used by `Numbering.CountDocx` |
| Strings.ReplaceAllKeepsOccurrence | invoice_generator.py:110 | an occurrence of another text that no occurrence of the pattern overlaps survives `str.replace` |
| Strings.ReplaceAll | invoice_generator.py:109-110 | `str.replace` leaves a text with no occurrence of the token unchanged, and replacing a token by itself changes nothing |
| Strings.ContainsIffOccurs | invoice_generator.py:109 | the `in` test holds exactly when the token occurs at some position |
| Strings.ReplaceAllAtFirstOccurrence | invoice_generator.py:110 | the text before the first occurrence is kept, the occurrence becomes the value, and replacement goes on after it (left to right, no overlap) |
| Placeholders.Token | invoice_generator.py:109-110 | the f-string `f"{{{{{key}}}}}"`: the key between two opening and two closing braces, four characters longer than the key; `Placeholders.TokensApart` shows that tokens of different brace-free keys never overlap |
| Placeholders.Step | invoice_generator.py:108-110 | a node without the key's token is not rewritten; an integer value whose token is present raises |
| Placeholders.Fill | invoice_generator.py:108-110 | definition of one node's new text: each key of the mapping in insertion order, applied to what the earlier keys left; no contract of its own, its properties are the `Fill*` lemmas below |
| Placeholders.TokensApart | invoice_generator.py:109 | two tokens of different brace-free keys never overlap in a text |
| Placeholders.StepKeepsToken | invoice_generator.py:108-110 | replacing one key's token keeps every token of another brace-free key |
| Placeholders.FillKeepsToken | invoice_generator.py:107-110 | tokens of keys the mapping does not hold are never targeted and survive the whole fill |
| Placeholders.FillRaisesAtTurn | invoice_generator.py:108-110 | an integer-valued key whose token is in the node makes the fill raise, whatever the keys before it replace |
| Placeholders.FillUntouched | invoice_generator.py:107-110 | a node holding no token of any mapped key is left exactly as it was |
| Placeholders.FillSequential | invoice_generator.py:108-110 | keys apply in the mapping's insertion order, each to the text the earlier keys left |
| Placeholders.FillTextValues | invoice_generator.py:108-110 | with string values only, filling never raises |
| Placeholders.FillRaises | invoice_generator.py:108-110 | an integer-valued key whose token is still present at its turn makes the node's fill raise |
| Placeholders.FillRaisedStays | invoice_generator.py:108-110 | once a fill has raised, later entries cannot undo it |
| Placeholders.ReplaceExample | invoice_generator.py:109-110 | with `{'a': 'X'}`, `"{{a}} and {{b}}"` becomes `"X and {{b}}"`, and the absent key's token survives |
| Placeholders.FillExample | invoice_generator.py:107-110 | the same example through the whole node fill |
| Placeholders.FillOrderExample | invoice_generator.py:108-110 | later keys see earlier replacements, so swapping two keys changes the result |
| Placeholders.FillText | invoice_generator.py:108-110 | the loop over the mapping for one node computes exactly `Fill` |
| Placeholders.Document.FillRowAt | invoice_generator.py:115-118 | every cell of one row is filled, and all other rows and tables are unchanged |
| Placeholders.Document.FillTableAt | invoice_generator.py:114-118 | every row of one table is filled, and the other tables are unchanged |
| Placeholders.Document.ReplacePlaceholders | invoice_generator.py:99-118 | succeeds exactly when every paragraph and cell fills; then each node is its own fill, and the counts and order of paragraphs, tables, rows and cells are kept |
| Calendar.WeekOfMonth | invoice_generator.py:133-142 | for day 1..31 and weekday 0..6 the week lies in 1..6 |
| Calendar.FirstDayWeek | invoice_generator.py:141-142 | the 1st is in week 1, or in week 2 when the month starts on a Sunday |
| Calendar.WeekStep | invoice_generator.py:142 | from one day to the next the week rises by one exactly when the new day is a Sunday, and otherwise stays |
| Calendar.WeekMonotone | invoice_generator.py:142 | the week never decreases as the day grows |
| Calendar.WeekCountsSundays | invoice_generator.py:142 | the week is one more than the number of Sundays so far |
| Calendar.WeekExamples | invoice_generator.py:142 | day 1 of a Monday-start month is week 1; day 31 of a Sunday-start month is week 6 |
| Numbering.CountDocx | invoice_generator.py:130 | the count of `.docx` entries is at most the number of entries |
| Numbering.InvoiceNumber | invoice_generator.py:120-131 | the number is at least 1, and exactly 1 when the year directory is missing |
| Numbering.CountDocxAppend | invoice_generator.py:130 | counting is additive over concatenated listings |
| Numbering.CountDocxPermutation | invoice_generator.py:130 | the number does not depend on the order `os.listdir` returns |
| Numbering.InvoiceNumberAddEntry | invoice_generator.py:130-131 | one more `.docx` entry raises the number by exactly one; any other entry changes nothing |
| Numbering.MonthDirName | invoice_generator.py:161 | definition of `f"{year}-{month:02d}"`; no contract of its own, `Numbering.MonthDirLayout` states its layout |
| Numbering.MonthDirLayout | invoice_generator.py:161 | the month directory is the year's digits, a dash, and the month in exactly two digits |
| Numbering.MonthDirNameShape | invoice_generator.py:161 | the month directory name has the `digits-dd` shape |
| Numbering.MonthDirNotDocx | invoice_generator.py:161 | a month directory never ends in `.docx` |
| Numbering.OnlyMonthDirsGiveOne | invoice_generator.py:128-131 | a year directory holding only month directories gives number 1 |
| Numbering.AfterMakeDirs | invoice_generator.py:163 | after `os.makedirs` the month directory is in the year directory's listing |
| Numbering.NumberAfterMakeDirs | invoice_generator.py:163-169 | the number counted after `os.makedirs` has created the month directory equals the number the listing before the run gives |
| Decimal.NatToString | invoice_generator.py:160 | `str(n)` is digits only, has no leading zero, and reads back as `n` |
| Decimal.NatToStringLength | invoice_generator.py:160 | `str(n)` has at most `k` digits exactly when `n < 10^k` |
| Decimal.ZeroPad | invoice_generator.py:161-162 | the `0Nd` padding keeps the value, is at least `N` wide, and ends in `str(n)` |
| Decimal.ZeroPadWidth | invoice_generator.py:161-162 | the padded field is exactly `N` wide when the number fits, and wider (never truncated) when it does not |
| Decimal.FormatInt | invoice_generator.py:177 | `02d` of any integer keeps the value, and a negative number keeps its sign in front |
| Dict.Keys | invoice_generator.py:178-184 | the keys of a dictionary, one per entry, in insertion order |
| Dict.Lookup | invoice_generator.py:178-184 | a lookup finds nothing exactly when the key is absent |
| Dict.Put | invoice_generator.py:178-184 | definition of `m[key] = value` on insertion-ordered entries; no contract of its own, `Dict.PutLookup` and `Dict.PutKeys` state it |
| Dict.Merge | invoice_generator.py:178-184 | definition of the `**` spread as puts in order; no contract of its own, `Dict.MergeLookup` and `Dict.MergeFresh` state it |
| Dict.PutLookup | invoice_generator.py:178-184 | after `m[key] = value` the key maps to `value` and every other key keeps its value |
| Dict.PutKeys | invoice_generator.py:178-184 | an existing key keeps its place, and a new key goes last |
| Dict.MergeLookup | invoice_generator.py:178-184 | in `{**m, **extra}` the keys of `extra` take its values, and every other key keeps its value from `m` |
| Dict.MergeFresh | invoice_generator.py:178-184 | a spread whose keys are all new appends its entries in order |
| InvoiceData.UserEntries | gui.py:101-108 | definition of the form's `user_data`: customer, year and quantities as strings, month and day as integers; no contract of its own, `InvoiceData.UserEntriesKeys` gives its keys in order and `InvoiceGenerator.MonthTokenRaises` and `InvoiceGenerator.DayTokenRaises` state what its integer values do |
| InvoiceData.DateEntries | invoice_generator.py:180-181 | definition of the `order_date` and `invoice_nr` entries; no contract of its own, `InvoiceData.DateEntriesKeys` gives its keys and `InvoiceData.OrderDateLayout` and `InvoiceData.InvoiceNrLayout` state its values |
| InvoiceData.TotalsEntries | invoice_generator.py:182 | definition of the formatted totals spread, in the key order `calculate_totals` returns them; no contract of its own, `InvoiceData.TotalsEntriesKeys` gives its keys and `InvoiceData.PlaceholderEntries` shows they override nothing |
| InvoiceData.OrderDate | invoice_generator.py:177 | definition of `f"{day:02d}-{month:02d}-{year}"`; no contract of its own, `InvoiceData.OrderDateLayout` states its layout |
| InvoiceData.InvoiceNr | invoice_generator.py:181 | definition of `f"{year}-{invoice_number:03d}"` with the form's year; no contract of its own, `InvoiceData.InvoiceNrLayout` states its layout |
| InvoiceData.PlaceholderMap | invoice_generator.py:178-184 | definition of `{**user_data, "order_date": ..., "invoice_nr": ..., **totals}`; no contract of its own, `InvoiceData.PlaceholderEntries` states its entries |
| InvoiceData.OrderDateLayout | invoice_generator.py:177 | for day and month in 0..99, `order_date` is `DD-MM-` then the form's year, with day and month exactly two digits that read back as the form's values; outside that range `Decimal.FormatInt` states each part: a leading `-` for a negative value, then digits that read back as its magnitude |
| InvoiceData.InvoiceNrLayout | invoice_generator.py:181 | `invoice_nr` is the form's year, a dash and the number, exactly three digits up to 999 and never truncated |
| InvoiceData.PlaceholderEntries | invoice_generator.py:178-184 | the spreads override nothing: the dictionary is the form's six entries, then `order_date` and `invoice_nr`, then the five totals |
| Generator.Plan | invoice_generator.py:156-169 | definition of the date segments, the number counted after `os.makedirs` and the file name; no contract of its own, `Generator.PlanNumber` and `Generator.PlanLayout` state them |
| Generator.InvoiceFileName | invoice_generator.py:189 | definition of `f"{customer}-{invoice_number:03d}.docx"`; no contract of its own, `Generator.FileNameLayout` states its layout |
| Generator.InvoicePath | invoice_generator.py:190-193 | definition of `os.path.join(week_dir, invoice_name)`, the returned path, as its segments; no contract of its own, `Generator.PlanLayout` states each segment and `InvoiceGenerator.GenerateInvoice` returns it exactly when every node fills |
| Generator.PlanNumber | invoice_generator.py:160-169 | the invoice number is one more than the year directory's `.docx` entries before the run, and the file name carries it |
| Generator.PlanLayout | invoice_generator.py:160-162 | the path segments are the output directory, today's year, `YYYY-MM` and the two-digit week, each reading back as today's year, month and week |
| Generator.FileNameLayout | invoice_generator.py:189 | the file name is the customer, a dash, the number in at least three digits, and `.docx`; it is exactly three digits up to 999 and never truncated |
| Generator.JanuaryExample | invoice_generator.py:158-169 | on 15 January 2026 with no year directory, the invoice goes to `2026/2026-01/03` as number 1 |
| Generator.ConsecutiveRunsShareNumber | invoice_generator.py:160-191 | a second run in the same year gets the same number, and the same path for the same customer and week |
| Generator.OwnLayoutGivesOne | invoice_generator.py:160-169 | a year directory written only by the generator always gives number 1 |
| InvoiceGenerator.MonthTokenRaises | invoice_generator.py:178-186 | any node holding `{{month}}` makes the fill raise, because the form's month is an integer |
| InvoiceGenerator.DayTokenRaises | invoice_generator.py:178-186 | any node holding `{{day}}` makes the fill raise, because the form's day is an integer |
| InvoiceGenerator.DateLineExample | invoice_generator.py:178-186 | the date line `{{day}}.{{month}}.{{year}}` can never be filled |
| InvoiceGenerator.YearMismatchExample | invoice_generator.py:160-181 | the directory uses today's year and `invoice_nr` the form's year: a 2025 form filled in January 2026 gives `2025-001` under `2026` |
| InvoiceGenerator.GenerateInvoice | invoice_generator.py:144-193 | the template is filled with the dictionary built for the planned number; the path is returned exactly when every node fills, and it is the planned path |
| Customers.Inserted | invoice_generator.py:39-48 | definition of the table after `INSERT` under the `UNIQUE` constraint; no contract of its own, the lemmas below and `AddCustomer` state it |
| Customers.InsertedKeepsUnique | invoice_generator.py:39-48 | inserting keeps names unique, stores the name, and keeps every name already stored |
| Customers.InsertedTwice | invoice_generator.py:39-48 | inserting the same name a second time changes nothing |
| Customers.StoredOnce | invoice_generator.py:25 | in a table without duplicates, each stored name occurs exactly once |
| Customers.CustomerStore.AddCustomer | invoice_generator.py:31-48 | returns true exactly when the name was absent; the name is stored afterwards, and a duplicate leaves the table unchanged |
| Customers.CustomerStore.GetCustomers | invoice_generator.py:50-61 | returns exactly the stored names, each once; the order is not promised |

## Left out

- `calculate_totals` (invoice_generator.py:76-97) is left out because it uses floating-point arithmetic. The model takes the five totals as strings that are already formatted.
- `format_decimal` (invoice_generator.py:66-74) is left out because it formats floats. It swaps only `.` for `,`, so the `,` grouping separator survives: 1234.5 becomes `1,234,50`.
- `int(user_data["quantity_item1"])` and the `ValueError` it can raise feed only `calculate_totals`, so they are left out with it.
- SQLite is not modelled: connections, commits and the database file are replaced by the `CustomerStore` class. Loading an existing table is its constructor.
- python-docx is not modelled:
  - Loading and saving the document are left out. The save is the returned path.
  - Run formatting lost when `.text` is assigned is left out.
  - Merged cells that repeat in `row.cells` are left out. Each cell is one string.
- `datetime.today()` is a parameter: today's year, month and day, plus the weekday of the 1st.
- `os.path.exists` and `os.listdir` are a parameter: the year directory's listing, or `None` when it is missing.
- `os.makedirs` is modelled only as its effect on that listing.
- `os.path.join` is modelled as a sequence of path segments. Separators and absolute-path segments are not modelled.
- A `FileExistsError` when a plain file already has a directory's name is left out.
- Placeholders.Document.ReplacePlaceholders: when a node raises, the result says only that filling failed. Which earlier nodes were already rewritten is not described.
- Placeholders.FillText: the node's text is computed first and assigned once. The source assigns it after every key, which makes no difference to the final text.
- No lemma states that no `{{` remains after filling: tokens of keys absent from the mapping survive, and values may contain tokens themselves.
- gui.py (tkinter widgets, dialogs and input checks) is not part of this model. The form's dictionary is the `UserData` datatype (gui.py:101-108): the year and quantities are strings, and the month and day are integers.
- Concurrency is left out: two overlapping runs can pick the same number, but the model describes single runs.
