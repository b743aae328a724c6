# Roll-call session of simple-sample, in Dafny

simple-sample's `demo.py` is a small desktop window that imports a roster of
teachers (工号 id, 姓名 name) from spreadsheets, scrolls random picks through
a label, records the pick the operator stops on into a numbered log, revokes
the last record, resets everything and exports the log. This project models
the state the window's `App` object keeps and the guards of each command,
without the widgets, dialogs and spreadsheet library.

- `text.dfy`, module `Text`: the id padding loop of `scroll_names`
  (`PadId`, proved equal to the function `ZeroPad`), Python's `str.split()`
  (`Split`, over Python's whitespace characters) and the lemma that splitting
  tokens joined by single spaces gives the tokens back.
- `app.dfy`, module `Demo`: the roster row `Person`, the log row `Record`,
  a parsed spreadsheet `Table`, the outcome of a command (`Outcome`: done,
  imported, a message-box notice, or an exception raised out of the
  callback), and the class `App` whose fields are the source's
  `is_scrolling`, `teacher_data`, `teacher_num`, `table_num`, `export_data`,
  `export_num` and the label text. Each command is a method whose `ensures`
  gives the new state in terms of the old one.

`App.Valid()` is the invariant every command keeps: `teacherNum` is the roster
size and `exportNum` the log size; row i of the log carries sequence number
i + 1; no id is recorded twice; a non-empty label is the label of some roster
entry; and every record was parsed from the label of a roster entry. From the
last two facts and the duplicate check, `RecordsFitRoster` proves that the log
never outgrows the roster, so the "remaining" count of the status line is
never negative.

Behaviour of `demo.py` worth knowing:

- Reset leaves the scrolling flag as it is (demo.py:238-243 never writes
  `is_scrolling`). A reset while scrolling leaves the flag on with an empty
  roster, and the next tick raises when it samples the empty roster
  (`Raised(EmptySample)`).
- Pressing record while scrolling does not only refuse: it sets the flag again
  and runs one more tick, so the label shows a new pick (demo.py:165-170).
- The duplicate test looks for the id token among all recorded cells, names
  included (`Recorded`), because `in` on the table's values compares with
  every cell.
- A label of more than two tokens (a name holding whitespace) passes the
  checks and then the three-column row write raises before anything changes
  (`Raised(MismatchedColumns)`).
- The import message reports the roster size after the import, not the
  number of rows imported (`Imported(total)`).

## Model

| member | source | states |
|---|---|---|
| `Text.PadId` | demo.py:155-157 | the padding loop returns exactly `ZeroPad(id)` |
| `Text.ZeroPadShape` | demo.py:155-157 | the padded id has length 10 (`TEACHER_ID_LENGTH`) or the id's own length if longer, ends with the id, and is '0' before it |
| `Text.SplitTokens` | demo.py:174 | every token of `str.split()` is non-empty and holds no whitespace |
| `Text.SplitFromTokens` | demo.py:174 | the same for the split continued from a partly read token |
| `Text.SplitFromWord` | demo.py:174 | reading a whitespace-free stretch only extends the current token |
| `Text.SplitJoin` | demo.py:174 | splitting tokens joined by single spaces yields exactly those tokens |
| `Demo.FormatPick` | demo.py:153-158 | the label written for a sampled row is the padded id, a space, the name |
| `Demo.LabelNamesThePick` | demo.py:158 | a label whose id has no whitespace and whose name is one word splits into the padded id and the name |
| `Demo.DistinctBelow` | demo.py:178-180 | pairwise distinct indices below n are at most n |
| `Demo.RecordsFitRoster` | demo.py:178-182 | records with distinct ids, each parsed from some roster entry's label, are no more than the roster entries |
| `Demo.App.constructor` | demo.py:94-99 | a new window: not scrolling, empty roster and log, all counters 0, empty label |
| `Demo.App.Remaining` | demo.py:302 | the remaining count equals roster size minus log size and is never negative |
| `Demo.App.ScrollNames` | demo.py:146-159 | not scrolling: nothing changes; scrolling on an empty roster: the sample raises; otherwise the label shows some roster entry |
| `Demo.App.StartScrolling` | demo.py:131-144 | empty roster: warning, nothing changes; scrolling: the flag goes off; otherwise the flag goes on and a pick is shown |
| `Demo.App.SaveData` | demo.py:161-188 | while scrolling the log is unchanged and the flag stays on; a new pick is shown, or on an empty roster the tick raises with the label unchanged; otherwise refuses an empty label or zero roster count, fewer than 2 tokens, a recorded token, raises on more than 2 tokens, and else appends `[exportNum+1, id, name]` |
| `Demo.App.AppendRecord` | demo.py:181-182 | the successful write appends one row numbered `exportNum+1`, keeps earlier rows and increments the count, keeping the invariant |
| `Demo.App.RevokeSave` | demo.py:190-207 | no records: warning, nothing changes; otherwise exactly the last row is dropped and the count decremented |
| `Demo.App.ImportList` | demo.py:209-228 | a table without both 工号 and 姓名 (valid_data, demo.py:304-310) changes nothing; otherwise its rows are appended in order, `teacherNum` grows by the row count and `tableNum` by one |
| `Demo.App.ResetList` | demo.py:230-249 | unconfirmed: nothing changes; confirmed: roster, log, counters and label emptied, the scrolling flag untouched |
| `Demo.App.ExportList` | demo.py:251-263 | an empty log is refused; otherwise the rows to write are the log in record order, row i numbered i+1 |
| `Demo.RecordThenRevoke` | demo.py:161-203 | a save, followed by a revoke whenever the save succeeded, leaves the log and count as they were |
| `Demo.RecordTwice` | demo.py:178-182 | after a successful save, saving again the same label is refused as already recorded and adds nothing |
| `Demo.RecordShownPick` | demo.py:153-182 | for a roster of whitespace-free ids and one-word names, a successful save records the padded id and name of a roster entry |

## Left out

- Widgets, layout, fonts, the scroll bar, the About window and the close
  handler: display only.
- Screen metrics from `ctypes.windll` and the window geometry: a platform
  call and display arithmetic.
- Message boxes: each becomes an `Outcome` value; the reset confirmation is
  the `confirmed` parameter.
- File dialogs, `pd.read_excel` with its `ParserError` path and `to_excel`:
  file I/O through a library. An import receives an already-parsed `Table`
  whose rows carry its columns; cells are their text, so the `str()` of a
  numeric or empty cell is not modelled. An export returns the rows to write.
- The `root.after` rescheduling: one `ScrollNames` call is one tick; the
  second timer chain that a record pressed while scrolling can start is not
  modelled.
- `DataFrame.sample`: the pick is a nondeterministic index into the roster;
  that the choice is uniform is not modelled.
- The text widget edits of `save_data` and `revoke_save` (inserting the line,
  deleting the last lines by offset): rendering; the data effect is the
  appended or dropped row.
- The status-line text of `update_config`: only its derived remaining count
  is modelled.
- mock.py is not part of this model: it generates random test data and
  writes a spreadsheet.
