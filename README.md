# Toggle TODO of logseq-plugin-daily-todo, modelled in Dafny

The plugin adds one command to the Logseq editor: "Toggle TODO for the
current block" (`toggleTODO` in `src/main.ts`). The command works on the
selected blocks, or on the current block when at most one block is selected.
It reads each block's task marker, which is `TODO` or `DONE` at the very
start of the text followed by whitespace. It then rewrites the text of each
block that has a uuid: the leading marker and the whitespace after it are
removed, and the next marker from a three-entry table is written in front.
In that table no marker becomes `TODO `, `TODO` becomes `DONE `, and `DONE`
becomes no marker. If the blocks of a batch do not all carry the same
marker, every block with a uuid is handled as if marked `DONE`: its leading
marker and the whitespace after it are removed, and no new marker is
written. Only that one leading match goes, so `"TODO DONE x"` becomes
`"DONE x"`. Blocks without a uuid are never rewritten.

The model has three modules:

- `Wrappers` (`wrappers.dfy`): an `Option` type. It stands for a value that
  may be `undefined` or `null`.
- `TodoMarker` (`todo_marker.dfy`): pure functions. They cover JavaScript's
  `\s` class, the pattern `^(TODO|DONE)\s+` as an explicit prefix parser
  (`MarkerMatch`), `extractTodoState`, the strip done by `replace`,
  `getNextTodoState` and the new text of one block.
- `ToggleTodo` (`toggle_todo.dfy`): the command itself. A block is the
  record `Block(uuid, content)`. The selection rule is a function. The
  `.some(...)` test is a read-only loop. The `for (let block of blocks)`
  loop updates an array of blocks in place. `ToggleTodo` ties these together.

The source's editor calls are handled as follows. `getSelectedBlocks` and
`getCurrentBlock` become the parameters of `ToggleTodo`. Each
`updateBlock(uuid, text)` becomes the assignment of the new text to that
block's slot in the array.

## Model

| member | source | states |
|---|---|---|
| `TodoMarker.IsWhitespace` | src/main.ts:49 | definition: the characters JavaScript's `\s` matches, i.e. the ECMAScript WhiteSpace set (tab, vertical tab, form feed, space, no-break space, byte order mark, the Zs space separators) and the LineTerminator set (line feed, carriage return, U+2028, U+2029) |
| `TodoMarker.ToggleContent` | src/main.ts:55-61 | definition: the text written for one block, `getNextTodoState(todoState) + strippedContent`, where the state is `DONE` when the batch is mixed and the block's own marker otherwise |
| `ToggleTodo.HasUuid` | src/main.ts:54 | definition: the guard `block?.uuid` under JavaScript truthiness; a missing uuid and the empty string are both skipped |
| `ToggleTodo.InDifferentStates` | src/main.ts:52 | definition: the batch is non-empty and some block, with or without a uuid, has a marker other than the first block's |
| `ToggleTodo.ToggledBlock` | src/main.ts:54-62 | definition: one pass of the loop body: a block with a uuid gets `ToggleContent` of its text under the batch's flag, any other block is left as it is |
| `ToggleTodo.Toggled` | src/main.ts:52-64 | definition: the batch after the loop: every block passed through `ToggledBlock` under the one flag computed for the whole batch |
| `TodoMarker.WhitespaceRun` | src/main.ts:49 | the greedy `\s+` takes the longest run of whitespace: every character in the run is whitespace, and the character after it is not |
| `TodoMarker.MarkerMatch` | src/main.ts:49 | the pattern matches exactly when the text starts, at position 0, with `TODO` or `DONE` followed by at least one whitespace character; the match captures those four letters and ends after the whole whitespace run that follows |
| `TodoMarker.NextTodoState` | src/main.ts:26-32 | the table is defined exactly on the three keys `''`, `'TODO'` and `'DONE'`; any other key is outside the table (the source gives `undefined`, or an inherited `Object.prototype` property such as `toString`); the model gives no value (`None`) |
| `TodoMarker.ExtractTodoState` | src/main.ts:43-46 | the result is always `TODO`, `DONE` or the empty marker, so the table is always defined on it; it is `TODO` (or `DONE`) if and only if the text starts with that word followed by whitespace |
| `TodoMarker.StripMarker` | src/main.ts:56-58 | a text without a marker is left unchanged; a text with a marker gets shorter, and what remains does not start with whitespace |
| `TodoMarker.StripRemovesMatchedPrefix` | src/main.ts:56-58 | the text is the marker, then a non-empty run of whitespace, then the stripped text: the strip removes exactly the marker and all the whitespace after it |
| `TodoMarker.PrefixedMarker` | src/main.ts:49 | a text written as `TODO ` or `DONE ` followed by anything carries that marker; stripping it gives back the rest whenever the rest does not start with whitespace |
| `TodoMarker.MarkerOnlyAtStartExamples` | src/main.ts:43-49 | `"TODO"`, `"TODOx"` and `" TODO x"` have no marker; `"TODO\tbuy"` has the marker `TODO` |
| `TodoMarker.StripWhitespaceRunExample` | src/main.ts:56-58 | `"DONE \n x"` is stripped to `"x"`: the whole whitespace run after the marker goes, newline included |
| `TodoMarker.ToggleAdvancesMarker` | src/main.ts:26-32 | the table as a cycle on text: no marker becomes `TODO`, `TODO` becomes `DONE`, and `DONE`, or a clear forced by a mixed batch, leaves only the stripped text |
| `TodoMarker.ToggleContentCycle` | src/main.ts:55-61 | for a text with no marker and no leading whitespace, the three toggles give `"TODO " + s`, then `"DONE " + s`, then `s` again |
| `ToggleTodo.SelectBlocks` | src/main.ts:50-51 | a selection of more than one block is the batch as it is; otherwise (no selection, or one block) the batch is the current block alone, so the batch is never empty |
| `ToggleTodo.BlocksInDifferentStates` | src/main.ts:52 | the loop's answer equals the mixed-batch predicate: some block, with or without a uuid, has a marker other than the first block's |
| `ToggleTodo.ToggleBlocks` | src/main.ts:53-64 | the array afterwards is the batch as toggled: each block with a uuid has the next marker (none for a mixed batch) in front of its stripped text, and every other slot is unchanged |
| `ToggleTodo.ToggleTodo` | src/main.ts:48-65 | the whole command: the blocks after it are the toggled form of the batch chosen by the selection rule |
| `ToggleTodo.ToggledFrame` | src/main.ts:53-62 | the batch keeps its length and its uuids, and a block without a uuid keeps its text; an empty-string uuid is falsy, so such a block keeps its text too |
| `ToggleTodo.MixedSelectionClears` | src/main.ts:52-61 | in a mixed batch every block with a uuid gets exactly its stripped text, with no new marker |
| `ToggleTodo.UniformSelectionAdvances` | src/main.ts:52-61 | in a batch that is not mixed every block shares the first block's marker, and each block with a uuid gets that marker's successor in front of its stripped text |
| `ToggleTodo.MixedPairClears` | src/main.ts:52-55 | two blocks with different markers form a mixed batch: each block is handled as if marked `DONE` |
| `ToggleTodo.UuidlessBlockStillCounts` | src/main.ts:52-54 | a block without a uuid is not updated, but its marker still counts toward the mixed test, so a block with a uuid and another marker, before or after it, is cleared |
| `ToggleTodo.ToggleUnmarked` | src/main.ts:55-61 | the first toggle of a batch with uuids, no markers and no leading whitespace writes `TODO ` in front of every block |
| `ToggleTodo.ToggleTodoMarked` | src/main.ts:55-61 | the second toggle turns every `TODO ` into `DONE ` |
| `ToggleTodo.ToggleDoneMarked` | src/main.ts:55-61 | the third toggle removes every `DONE ` again |
| `ToggleTodo.ToggleThriceRestores` | src/main.ts:26-32 | round trip: three toggles of such a batch (one current block included) pass through `TODO` and `DONE` and restore the original blocks |

## Left out

- Settings initialisation and lookup (`initSettings`, `getSettings`, src/main.ts:3-24, 34-41) are left out as configuration plumbing. So is the way `Object.assign` overwrites the default settings object.
- Command registration, the key binding and `logseq.ready` (src/main.ts:67-86) are left out as editor plumbing.
- `getSelectedBlocks` and `getCurrentBlock` are the parameters `selected` and `current`. A null current block, which the source dereferences and crashes on, is excluded by the non-null type `Block`. The crash is not modelled.
- `updateBlock` is the write to the block's slot in the array. The backend looks blocks up by uuid, so this agrees with the source only when the uuids in a selection are distinct. The model also cannot tell a call that writes unchanged text from no call at all.
- The `await`s around the editor calls, and any edit made concurrently by another command, are not modelled.
- `NextTodoState`: for a key outside the table, the source's lookup gives `undefined`, or an inherited `Object.prototype` property such as `toString` (a function). The concatenation would then write that value's text in front of the stripped text. The model gives `None` instead. The case cannot happen, because the marker is always one of the three keys (`ExtractTodoState`).
- JavaScript strings are UTF-16 code units, while Dafny characters are Unicode scalar values. Every character that `\s` matches lies in the Basic Multilingual Plane, so the matches agree. Surrogate pairs elsewhere in the text are not modelled.
- Rolling unfinished tasks over between journal pages, the LATER/NOW marker vocabularies and a highlight toggle are not part of this model. None of them appears in `src/main.ts`, which recognises only `TODO` and `DONE` and cycles empty → `TODO` → `DONE` → empty.
