# rich-block editor: a Dafny model of the block list and its key handler

`rich-block` is a React block editor. A document is a list of blocks. Each block is a
record with an id, a tag (`p`, `a`, `h1`–`h6`), its text, and optional style and attribute
maps. Each block is rendered as its own contenteditable element. `Editor` owns the list
and lends each `EditorItem` three controller calls: `getContent`, `changeContent` and
`removeContent`. `EditorItem.onKeyDown` turns Enter, Backspace, Delete, the arrows and
Ctrl+Home/End into a short sequence of those calls. Enter splits a block, Backspace and
Delete merge blocks, and the other keys leave a pending caret instruction on a
neighbouring, first or last block. When the block renders again, that instruction is
resolved to selection offsets by `moveCaret`/`setRange` and then cleared.

The model has these files:

- `blocks.dfy` (`Wrappers`, `Blocks`): the block record, the object spread
  `{ ...block, ...patch }` (`Overlay`), `getRichBlockDefault`, and the tag-to-element mapping.
- `caret.dfy` (`CaretPlacement`): the offsets chosen by `moveCaret`, `moveCaretLast` and
  `setRange`. The element enters only as two inputs: whether it has a text node, and the
  length of its text.
- `menu.dfy` (`Menu`): the spread operands built by `changeTag`, `changeStyle` and `changeAttr`.
- `controller.dfy` (`Controller`): the editor state as a value: `Contents`, the
  `createKey` counter, and the copies published by `updateContent`. It also defines
  `getContent`, `changeContent` and `removeContent` as functions on that value.
- `keys.dfy` (`Keys`): `onKeyDown` as a function of the state, the block index, the key,
  the Ctrl flag, the caret offset `getCurrentCaret()` returns, and the element's `textContent`.
  The file also holds the lemmas about each key.
- `editor.dfy` (`EditorComponent`): class `Editor`. It holds the same state in fields that
  its methods change in place, the way the source mutates `Contents` and then publishes a
  copy. Each method is proved against the functions above.
- `findings.dfy` (`Findings`): two defects, each with its corrected definition.

Ids are `nat`. `createKey`, imported from `src/index`, is modelled as a counter. It hands
out the next unused id. Supplied content starts the counter above every supplied id.
`onChange` is modelled as the log `published`: each `updateContent` appends one copy of
the list.

The model follows the code as written, including these behaviours:

- Enter on a block that has a successor overwrites that block's text. It does not insert
  a new block.
- A negative caret offset is not clamped to 0.
- Ctrl+Home and Ctrl+End do not call `preventDefault`.
- The list is not always non-empty: a supplied empty list is kept, and `removeContent`
  called directly can remove the last block. A key press never empties the list.
- Ids stay distinct only if the supplied content's ids are distinct. The source does not
  check this.

## Model

| member | source | states |
|---|---|---|
| Blocks.Overlay | src/Editor.tsx:58 | `{ ...b, ...p }`: every field the patch supplies has the patch's value, and every field it leaves out keeps the block's value |
| Blocks.OverlayHonours | src/Editor.tsx:58 | after a spread, every field the patch supplies has the patch's value; spreading `{}` changes nothing |
| Blocks.OverlayThen | src/Editor.tsx:58 | two spreads in a row equal one spread of the combined operand |
| Blocks.OverlayRecord | src/Editor.tsx:124 | spreading a copy of the record with new contents over itself replaces the contents and nothing else |
| Blocks.RichBlockDefault | src/Editor.tsx:32-39 | every field the argument supplies wins; otherwise the result is the fresh id, tag `p`, empty contents, and no style, attributes or caret |
| Blocks.DefaultWithContents | stories/editor.stories.tsx:17 | `getRichBlockDefault({contents: 'test'})` is a paragraph reading "test" with the fresh id |
| Blocks.ElementName | src/Editor.tsx:100 | a block renders as `span` exactly when its tag is `a`, never as an anchor; every other tag renders as itself |
| CaretPlacement.SetRange | src/Editor.tsx:339-347 | the start is `from`; the end is `to`, or `from` when `to` is missing or 0 |
| CaretPlacement.MoveCaret | src/Editor.tsx:316-338 | with no text node the range is (0,0); `'last'` is (len,len); a numeric start is clipped to len from above; an end of 1..len is kept; a larger one becomes len (or the start when len is 0); an end of 0 falls back to the start; a negative end is passed through; with no end the range is collapsed |
| CaretPlacement.MoveCaretLast | src/Editor.tsx:348-351 | the caret goes after the last character, or to 0 when there is no text node |
| CaretPlacement.CaretWithinText | src/Editor.tsx:316-351 | a non-negative caret instruction becomes a collapsed range inside 0..len |
| CaretPlacement.CaretClampedToLength | src/Editor.tsx:330-337 | an offset past the text length is placed at the length |
| CaretPlacement.NegativeOffsetNotClamped | src/Editor.tsx:331 | a negative offset is passed through unchanged |
| CaretPlacement.CaretIdempotent | src/Editor.tsx:316-351 | re-requesting the offset a placement chose gives the same range |
| Menu.TagPatch | src/Editor.tsx:230-232 | the tag edit changes the tag and nothing else |
| Menu.EditedStyle | src/Editor.tsx:233-235 | the copied style map has the input's entry set, keeps every other entry, and has no other keys |
| Menu.StylePatch | src/Editor.tsx:236 | `{ style: _style }` replaces the style of any block with the edited copy and nothing else |
| Menu.EditedAttr | src/Editor.tsx:238-240 | the copied attribute map has the input's entry set, keeps every other entry, and has no other keys |
| Menu.AttrPatch | src/Editor.tsx:241 | `{ attributes: _attr }` sets `attributes` of any block to the edited copy of `attribute` and leaves `attribute` unchanged |
| Menu.StyleEditApplies | src/Editor.tsx:233-236 | a style edit replaces only the style map; the new entry is present and every earlier entry survives |
| Menu.StyleEditsAccumulate | src/Editor.tsx:233-236 | two style edits of different properties keep both values |
| Menu.AttrEditNotRendered | src/Editor.tsx:238-241 | the attribute edit as written leaves `attribute` unchanged and only writes `attributes` |
| Menu.AttrEditsDoNotAccumulate | src/Editor.tsx:238-241 | a second attribute edit discards the first: `attributes` is the original `attribute` plus the last edit only |
| Controller.Init | src/Editor.tsx:45 | without content the list is one default paragraph; supplied content is kept unchanged, even when empty; the id counter is above every id |
| Controller.Get | src/Editor.tsx:54-56 | the block at the index, or none exactly when the index is out of range |
| Controller.CreateKey | src/Editor.tsx:35 | the issued id belongs to no block in the list, and the counter moves past it |
| Controller.Change | src/Editor.tsx:57-60 | for key < N: block key is overlaid, the length is unchanged, no id is used. For key == N: a default block with a fresh id is overlaid and appended, and the length grows by one. Every other index is unchanged, and the new list is published once |
| Controller.Remove | src/Editor.tsx:61-65 | out of range or empty: no change and nothing published; otherwise exactly block key is removed, the others keep their order (also as a multiset), and the length drops by one |
| Controller.ChangeThenChange | src/Editor.tsx:57-60 | two `changeContent` calls on one existing block leave the list as one call with the combined operand, and take no id |
| Controller.RemoveCanEmpty | src/Editor.tsx:61-65 | removing the only block leaves an empty list |
| Controller.ChangeKeepsIds | src/Editor.tsx:57-60 | a change keeps every id below the counter, and keeps ids distinct when the patch brings no id held by another block |
| Controller.RemoveKeepsIds | src/Editor.tsx:61-65 | a removal keeps every id below the counter and keeps ids distinct |
| Keys.Cut | src/Editor.tsx:131-132 | the substring cut point is the caret, or the text length when the caret is past it |
| Keys.CaretPatch | src/Editor.tsx:140-185 | `{ caret: t }` sets the pending caret of any block and nothing else |
| Keys.MergePatch | src/Editor.tsx:161-176 | the merge operand sets the id, the contents and the pending caret of any block and nothing else |
| Keys.OnKeyDown | src/Editor.tsx:126-187 | after Enter a block always follows the current one; no key press empties the list or changes its length by more than one |
| Keys.Split | src/Editor.tsx:128-136 | block i keeps the text before the caret; block i+1 gets the rest with caret 0; the pieces concatenate to the text; the list grows (with a fresh id) only at the last block; otherwise block i+1 keeps its id, tag, style and attributes; all other blocks are unchanged; two copies are published, the last being the final list |
| Keys.MergeBackward | src/Editor.tsx:157-167 | block i-1 becomes prev+text with caret at prev's length and a fresh id, block i is removed, the others keep their order, the length drops by one; two copies are published, the last being the final list |
| Keys.MergeForward | src/Editor.tsx:168-178 | block i becomes text+next with caret at the text length and a fresh id, block i+1 is removed, the others keep their order, the length drops by one; two copies are published, the last being the final list |
| Keys.SplitKeepsIds | src/Editor.tsx:128-136 | Enter keeps the id counter ahead of all ids and keeps distinct ids distinct |
| Keys.MergeBackwardKeepsIds | src/Editor.tsx:157-167 | Backspace keeps the id counter ahead of all ids and keeps distinct ids distinct |
| Keys.MergeForwardKeepsIds | src/Editor.tsx:168-178 | Delete keeps the id counter ahead of all ids and keeps distinct ids distinct |
| Keys.EnterSplits | src/Editor.tsx:128-136 | Enter always performs the split and prevents the default, whatever the caret and the modifiers |
| Keys.BackspaceMerges | src/Editor.tsx:157-167 | on block 0 nothing changes and the default is not prevented; on any other block Backspace performs the backward merge, whatever the caret |
| Keys.BackspaceIgnoresCaret | src/Editor.tsx:157-167 | Backspace gives the same outcome whatever the caret offset and the Ctrl flag |
| Keys.DeleteMerges | src/Editor.tsx:168-178 | Delete performs the forward merge exactly when the caret is at the end of the text and a next block exists; otherwise nothing changes and the default is not prevented |
| Keys.NavigationFollowsTable | src/Editor.tsx:137-186 | each arrow key and Ctrl+Home/End sets the caret of exactly the block given by an independent table, or is a no-op; only the arrows prevent the default |
| Keys.NavigationOnlyMovesCaret | src/Editor.tsx:137-186 | navigation keeps the length, texts, ids, tags, styles and attributes, and changes at most one block |
| Keys.CaretUpdateOnlyMovesCaret | src/Editor.tsx:137-186 | setting the caret of one block keeps every text and every other field, and changes no other block |
| Keys.OtherKeyNoOp | src/Editor.tsx:127-187 | a key the switch has no case for changes nothing, publishes nothing and does not prevent the default |
| Keys.ArrowRightAtEndOfLastBlock | src/Editor.tsx:152-156 | ArrowRight at the end of the last block is a no-op |
| Keys.KeysKeepIds | src/Editor.tsx:128-186 | every key press keeps the id counter ahead of all ids and keeps distinct ids distinct |
| Keys.KeysPublishFinalList | src/Editor.tsx:51-65 | a key press appends at most two published copies, the last being the final list, and publishes whenever the list changed |
| Keys.SplitMergeRoundTripLast | src/Editor.tsx:128-167 | Enter on the last block, then Backspace on the new block, restores every text; the merged block has a fresh id and its caret at the split point |
| Keys.SplitHello | src/Editor.tsx:128-136 | Enter in "hello" at offset 3 gives "hel" and "lo", the latter with caret 0 |
| Keys.MergeAbCd | src/Editor.tsx:157-167 | Backspace on "cd" after "ab" gives the single block "abcd" with a new id and caret 2 |
| EditorComponent.Editor.constructor | src/Editor.tsx:45 | the initial state is `Controller.Init` of the supplied content, and every id is below the counter |
| EditorComponent.Editor.CreateKey | src/Editor.tsx:164 | returns the counter's id and advances the counter, as `Controller.CreateKey`; the ids stay below the counter (`Valid`) |
| EditorComponent.Editor.UpdateContent | src/Editor.tsx:51-53 | appends one copy of the current list to the published log and changes nothing else; the ids stay below the counter (`Valid`) |
| EditorComponent.Editor.GetContent | src/Editor.tsx:54-56 | returns `Controller.Get` of the current state |
| EditorComponent.Editor.ChangeContent | src/Editor.tsx:57-60 | the new state is `Controller.Change` of the old one; the ids stay below the counter (`Valid`) when the patch brings no id or an issued one |
| EditorComponent.Editor.RemoveContent | src/Editor.tsx:61-65 | the new state is `Controller.Remove` of the old one; the ids stay below the counter (`Valid`) |
| EditorComponent.Editor.SplitAt | src/Editor.tsx:128-136 | the two `changeContent` calls of Enter leave the state `Keys.Split` of the old one; the ids stay below the counter (`Valid`) |
| EditorComponent.Editor.MergeIntoPrevious | src/Editor.tsx:157-167 | `getContent`, `createKey`, `changeContent` and `removeContent` of Backspace leave the state `Keys.MergeBackward` of the old one; the ids stay below the counter (`Valid`) |
| EditorComponent.Editor.MergeNext | src/Editor.tsx:168-178 | the calls of Delete leave the state `Keys.MergeForward` of the old one; the ids stay below the counter (`Valid`) |
| EditorComponent.Editor.KeyDown | src/Editor.tsx:126-187 | the new state and the preventDefault flag are `Keys.OnKeyDown` of the old state; the id counter stays ahead of all ids, and distinct ids stay distinct |
| EditorComponent.Editor.Input | src/Editor.tsx:123-125 | only block i's contents change, to the element's text; the list is published once |
| EditorComponent.Editor.ResetCaret | src/Editor.tsx:120-122 | only block i's caret changes, to unset; the list is published once |
| EditorComponent.Editor.ApplyPendingCaret | src/Editor.tsx:114-118 | no pending caret: nothing happens. Otherwise the range is `moveCaret` of the instruction, the instruction is cleared, and nothing else changes |
| EditorComponent.Editor.ChangeTag | src/Editor.tsx:230-232 | only block i's tag changes |
| EditorComponent.Editor.ChangeStyle | src/Editor.tsx:233-237 | only block i's style changes, to its copy with the input's entry set |
| EditorComponent.Editor.ChangeAttr | src/Editor.tsx:238-242 | only block i's `attributes` changes, to the edited copy of `attribute`; `attribute` is unchanged |
| Findings.EnterOverwritesNextBlock | src/Editor.tsx:135 | Enter on a block with a successor keeps the length and writes the second piece over the successor's text |
| Findings.EnterLosesText | src/Editor.tsx:128-136 | on ["ab","cd"], Enter at offset 1 of "ab" gives ["a","b"]; "cd" is lost from `Contents` and from what `onChange` reports |
| Findings.SplitInsert | src/Editor.tsx:128-136 | the intended split inserts a fresh block after i and shifts the others in order |
| Findings.SplitInsertMergeRoundTrip | src/Editor.tsx:128-167 | with the intended split, splitting any block and merging back restores every text and the length |
| Findings.IntendedAttrPatch | src/Editor.tsx:241 | the corrected operand writes the edited copy back to `attribute` of any block and changes nothing else |
| Findings.IntendedAttrEditsAccumulate | src/Editor.tsx:238-242 | with the intended attribute edit, the rendered `attribute` map gets the value, and successive edits accumulate |
| Findings.HrefEditNotRendered | src/Editor.tsx:238-242 | on a link block with no attributes, setting href as written leaves `attribute` absent and writes `attributes` |

## Findings

| source | as written | input that shows it | evidently intended | confidence | as-written member | corrected member |
|---|---|---|---|---|---|---|
| src/Editor.tsx:135 | Enter calls `changeContent(idx + 1, …)`, which overwrites an existing next block | blocks "ab", "cd"; Enter in block 0 at offset 1 leaves "a", "b" in `Contents` and in what `onChange` reports | insert a new block after block idx | high; not executed | Findings.EnterLosesText | Findings.SplitInsertMergeRoundTrip |
| src/Editor.tsx:241 | `changeAttr` stores the edited map under `attributes`, but rendering and the form read `attribute` | a link block with no attribute map; setting href leaves the element without href | write the map back to `attribute` | high; not executed | Findings.HrefEditNotRendered | Findings.IntendedAttrEditsAccumulate |

The class `Editor` keeps the code as written, because that code is what the model
describes. The corrected definitions sit beside it in `Findings`, and the
intended-property lemmas are stated about them.

## Left out

- React rendering, hooks and effect timing are not modelled. Only the bodies of the
  effects are: the one that consumes a pending caret is `ApplyPendingCaret`, and the ones
  that call `moveCaretLast` on mount and on a tag change are `MoveCaretLast`. React
  batches several `setContents` calls into one render and one `onChange`; the model logs
  every copy instead.
- The JSON debug output, `console.log`, the `Empty` placeholder state and the focus state
  of `EditorItem` and `BlockMenu` are presentation, so they are not modelled.
- The `BlockMenu` popover markup is not modelled. A tag chosen in the select is one of the
  eight `Tag` values, because those are the only options it offers.
- The DOM Selection/Range calls are left out, including the early return of `setRange`
  when there is no selection and the 0 returned by `getCurrentCaret` without one. The
  caret offset and the element's text are inputs. The write to `textContent` on Enter is
  also not modelled.
- Controller.Change, Controller.Remove, EditorComponent.Editor.ChangeContent and
  EditorComponent.Editor.RemoveContent: aliasing is not modelled. `useState(props.content || …)`
  makes the caller's array the state itself, and the array given to `onChange` is the state
  array. So the caller's `content` and the last array `onChange` received see each in-place
  write to `Contents` before `updateContent` copies it. The model's states and its `published`
  log are immutable values, so those outside holders never change.
- Block 1 still shows "cd" on screen after `Findings.EnterLosesText`: `EditorItem` renders
  its `Content` ref, which is never updated while the block keeps its id. Rendering is not
  modelled.
- `changeContent` with a negative key or one beyond the list length is not modelled (in
  JavaScript this makes a stray property or a sparse array). No caller passes such a key.
- `removeContent` with a negative key is a no-op in the model. Its interaction with a
  stray `-1` property is not modelled.
- Text lengths count characters. JavaScript counts UTF-16 code units.
- Numeric style and attribute values are `real`. Caret offsets are integers.
- The exported constant `RichBlockDefault` (src/Editor.tsx:27-31) is not modelled. It is
  `getRichBlockDefault()` evaluated once at load, and the core never uses it.
- The `|| ''` guards on `textContent` are not modelled, because an element's text is never null.
- `docs/assets/Introduction-53c09c31.js` is a documentation bundle with no logic, and
  `vite.config.js` is build configuration, so neither is modelled.
