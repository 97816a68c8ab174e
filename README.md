# Row dispatcher of the EOCalculator spreadsheet driver

`calculator.py` reads a sheet row by row. The row keyed `"1"` is the header. Each
header cell may name a Python function of the module, and `row1funcs` records,
for each such column, the function's parameters in signature order with their
defaults (`None` where there is none). On every later row, `dorow` hands each cell
that is exactly `"?"` and lies under a function column to `evalfunc`. `evalfunc`
prints a call text `fname(p1='xxx', p2='xxx', ...)`, or nothing for a function
without parameters. The code never evaluates that text and never writes anything
back to the sheet.

The model has three modules:

- `Registry` (registry.dfy) covers what `globals()` and `inspect.signature`
  report: a map from function name to its ordered parameter list, where a default
  is either `Empty` (Python's `inspect._empty`) or a string value. It also holds
  the insertion-ordered parameter table (a Python dict, as a sequence of entries)
  that `row1funcs` fills, and `ModuleRegistry`, the callables of `calculator.py`
  itself.
- `CallStrings` (calltext.dfy) holds the call text: its intended shape, the
  intermediate string that `evalfunc`'s loop accumulates, and a parser that reads
  a call text back.
- `Calculator` (calculator.dfy) holds the session. `globs.funcs`, `globs.fargs`
  and the printed lines are the fields `funcs`, `fargs` and `log` of class
  `Session`. `dorow`, `row1funcs` and `evalfunc` are imperative methods on it,
  each proved against a specification function: `FargsOf`, `DispatchedColumns`,
  `CallsFor` and `Emitted`.

`Valid()` is the session invariant: `fargs` is always the table that `row1funcs`
builds from the stored header.

## Model

| member | source | states |
|---|---|---|
| Registry.ModuleRegistry | calculator.py:4-94 | The callables that `globals()` shows at module level: main, dosheet, dorow, evalfunc, row1funcs, Func1 and Func2. Each comes with the parameter list `inspect.signature` reports, in declaration order; Func2 has param2 defaulting to "" and status defaulting to "Okay". |
| Registry.RecordedValue | calculator.py:81-85 | What is stored for one parameter: None when its default is `inspect._empty`, the default itself otherwise. |
| Registry.Recorded | calculator.py:76-85 | A function column's table: it starts empty and takes one dict assignment per parameter, in signature order. |
| Calculator.FargsOf | calculator.py:72-86 | The `fargs` built from a header row: for each column, left to right, a fresh recorded table whenever the header names a registered function. |
| Calculator.DispatchedColumns | calculator.py:49-55 | The column indices handed to `evalfunc`, in visiting order: a column qualifies when its header is registered and its cell is exactly "?". |
| Calculator.Emitted | calculator.py:58-69 | What `evalfunc` prints for a function: one call text naming every parameter in signature order, or no line when the function has no parameters. |
| CallStrings.Accumulated | calculator.py:61-65 | The value of `evalme` after the loop has visited the given keys: `fname(`, followed for each key by `key='xxx', `. |
| Calculator.Session.DoRow | calculator.py:44-55 | On the row keyed "1", the header row is stored, `fargs` is rebuilt from it and nothing is printed, whatever its cells hold. On any other row, `funcs` and `fargs` stay unchanged and the lines printed are those of the dispatched columns, in order. `ok` is false exactly when the data row is longer than the header, the case that raises IndexError. |
| Calculator.Session.DataRow | calculator.py:48-55 | The data-row loop prints, in column order, the lines of every column dispatched among the cells that lie under the header. It reports failure exactly when the row has more cells than the header. |
| Calculator.Session.DoCell | calculator.py:50-55 | One cell prints the function's call text only when its header is a registered function and the cell is exactly "?". An empty cell or any other literal prints nothing. |
| Calculator.Session.EvalFunc | calculator.py:58-69 | The column holds a registered function. The log grows by exactly one call text when that function has parameters, and by nothing otherwise. |
| Calculator.Session.RowOneFuncs | calculator.py:72-86 | `fargs` becomes the specification table `FargsOf` of the header row. |
| Calculator.Session.constructor | calculator.py:1 | A session starts with no header stored, no tables and an empty log. |
| Calculator.FargsKeys | calculator.py:74-76 | The keys of `fargs` are exactly the column indices whose header is a registered function. Each holds the recorded table of that function. |
| Calculator.FargsEntry | calculator.py:59 | A column that has a table lies within the header and names a registered function. |
| Calculator.FargsColumn | calculator.py:76-85 | A function column's table lists every parameter once, in signature order. Each maps to its default, or to None when it has none, so a default of "" is kept distinct from a missing one. |
| Registry.RecordedEntries | calculator.py:79-85 | The table built by the sequence of dict assignments has exactly one entry per parameter, in signature order, holding the default or None. |
| Registry.RecordedKeys | calculator.py:64 | Iterating the recorded table visits the parameter names in signature order. |
| Registry.RecordedLookup | calculator.py:82-85 | Looking up a parameter gives Some(None) when it has no default and Some(its default) when it has one. A name that is no parameter is absent. |
| Registry.Put | calculator.py:83 | Dict assignment appends a new key at the end, and overwrites an existing key in place. |
| Registry.Lookup | calculator.py:82-85 | Reading a recorded parameter back gives None exactly when the key is absent, and otherwise the value of the first entry with that key. |
| Registry.ModuleRegistryWellFormed | calculator.py:4-93 | All function and parameter names of the module are identifiers, and no function names a parameter twice. |
| Registry.Func2Table | calculator.py:93 | Func2's recorded table is param1 -> None, param2 -> "", status -> "Okay", in that order. |
| Registry.Func2Recorded | calculator.py:93 | Func2's table gives param1 -> None and param2 -> "", kept apart, and status -> "Okay". It has no entry for a name that is not a parameter. |
| Calculator.DispatchedColumnsSpec | calculator.py:49-55 | A column is handed to `evalfunc` if and only if it lies within the row, its header is a registered function and its cell is exactly "?". Dispatched columns come in strictly ascending order. |
| Calculator.DispatchStep | calculator.py:49 | Visiting one more cell extends the dispatched columns by that column or by nothing. |
| Calculator.RowStep | calculator.py:49-55 | Visiting one more cell extends the printed lines by that column's call text or by nothing. |
| Calculator.LogStep | calculator.py:49-55 | The log after a cell is the log before it, plus that cell's output. |
| Calculator.CallsForLines | calculator.py:62-69 | Every printed line is the call text of one of the dispatched columns, naming that column's function and all of its parameters. |
| Calculator.CallsFor | calculator.py:69 | At most one line is printed per dispatched column. |
| Calculator.CallsForAppend | calculator.py:54-55 | Dispatching one more column appends exactly that column's output. |
| Calculator.EmittedParses | calculator.py:61-69 | A line is printed exactly when the function has parameters. That line parses back to the function's name and all its parameter names in signature order, each given the literal 'xxx'. It carries n-1 separators for n parameters. |
| CallStrings.TrimAccumulated | calculator.py:63-68 | The accumulated `fname(p1='xxx', ..., pn='xxx', ` with its last two characters cut off and ")" appended is exactly the call text, with no trailing separator. |
| CallStrings.AccumulatedArgList | calculator.py:61-65 | After the loop, the accumulated string is `fname(`, then the argument list, then one trailing ", ". |
| CallStrings.AccumulatedStep | calculator.py:64-65 | Each loop iteration appends one `name='xxx', ` to the accumulated string. |
| CallStrings.ArgListSnoc | calculator.py:64-65 | Adding a parameter at the end adds ", " and one argument to the argument list. |
| CallStrings.ParseCallRoundTrip | calculator.py:61-69 | The call text parses back to the function name and its parameter names. Every argument must be the literal 'xxx' to parse. |
| CallStrings.ParseArgsRoundTrip | calculator.py:63-65 | The argument list parses back to the parameter names in order. |
| CallStrings.ParseArgsOne | calculator.py:65 | A single argument `name='xxx'` parses to its name. |
| CallStrings.ParseArgsCons | calculator.py:65 | An argument followed by ", " parses to its name in front of what the rest parses to. |
| CallStrings.SeparatorCount | calculator.py:67-68 | A call text for n parameters holds exactly n-1 commas and ends in `')`, so no separator trails the last argument. |
| CallStrings.ArgListCommas | calculator.py:65 | The argument list for n identifier names holds n-1 commas. |
| Calculator.ExampleDispatch | calculator.py:89-94 | With header Func1, Func2, param1, param2, the data row ?, ?, X, Y dispatches columns 0 and 1 only. |
| Calculator.Func2Call | calculator.py:93 | Func2's call text is `Func2(param1='xxx', param2='xxx', status='xxx')`. |
| Calculator.ExampleRow | calculator.py:89-94 | On that row, Func1 prints nothing and Func2 prints its call text. |
| Calculator.ExampleSession | calculator.py:44-94 | A fresh session given that header row and then that data row succeeds and prints exactly Func2's call text. |

## Left out

- `main` and `dosheet` (calculator.py:4-41) are left out. They read CSV files and `shelve` databases, call `gspread`/OAuth, stop at an all-empty row and order row keys with `sorted`; all of that is I/O and foreign-library code.
- `globals()`, `eval(fname)` and `inspect.signature` are runtime introspection. The session's `registry` stands in for them. A header that names a global which is not callable, such as `globs`, makes `signature` raise; the model leaves that case out.
- Defaults are modelled as strings. Python allows any value; the code only stores the default and never reads it back.
- The bodies of `Func1` and `Func2` are left out. Nothing calls them; only their signatures are modelled.
- The triple-quoted string at calculator.py:100-172 is dead code and is left out.
- `print` is modelled by appending the line to `log`.
- `globs.py` is not part of this model. A fresh session is assumed to start with `funcs` and `fargs` empty, so a non-empty data row before any header fails at its first cell.
- Calculator.Session.DoRow: the IndexError that `globs.funcs[coldex]` raises on a row longer than the header appears as `ok == false`, keeping the lines printed for the earlier columns. Propagation of the exception is not modelled.
- Calculator.Session.DoRow: `globs.funcs = arow` (calculator.py:46) keeps an alias to the caller's list, so a later change to that list would show in `globs.funcs`; the model stores the row as a sequence value and does not capture that aliasing. The code itself never changes a row.
- In the model, every `fargs` table holds one entry per parameter name (Python signatures never repeat a name). `evalfunc`'s loop iterates the dict's keys in insertion order, and the model follows that order.
- The code writes no result back into the sheet, uses no sentinel value and takes no argument from other columns; the model does none of this either.
