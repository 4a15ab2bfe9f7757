# CV builder list editor, in Dafny

This project models the core of a small interactive résumé builder: the reusable
list editor (the `Dropdown` component) and the store of résumé data around it.
The store keeps one scalar record, personal info, and four ordered lists:
education, skills, projects and experience. There is one editor per slot.

Each editor keeps four fields:
- `isOpen`;
- an edit buffer with one field per schema label;
- `editMode`;
- `editIndex`, which is -1 for a new item and otherwise the position of the
  item being edited.

The editor never keeps a copy of the slot's data. Each handler reads the
slot's current list and hands a complete new value back to the store. The
personal-info editor is "live": every keystroke pushes the whole buffer as a
record. The list editors only stage changes in the buffer until Save.

Files:
- `records.dfy` (module `Records`): records as ordered key/value entries; the
  JavaScript assignment `obj[k] = v` (`Assign`); lookups that read an absent
  key as `""`; the edit buffer; and the loop that turns a buffer into a record
  (`BuildRecord`, specified by `Materialise`).
- `list_ops.dfy` (module `ListOps`): the three list updates the editor sends.
  Delete by position is the `filter`, update in place is the `map`, and Add
  is the spread-append.
- `preview.dfy` (module `Preview`): the compact one-line view of a list item
  (`getPreviewFields`), its rendering with separator dots, and the
  empty-section check of the CV preview.
- `editor.dfy` (module `Editor`): the `Store` class, the `ListEditor` class
  with one method per handler, and which panel is visible.
- `scenario.dfy` (module `Walkthrough`): the education editor worked through
  one add, one edit and one delete. This is done twice: once on the pure
  functions and once on the objects.

A field that has no `value` yet behaves exactly like a field whose value is
`""`, because every read is written `value || ""`. So the schema defaults and
the cleared buffer are the same value here (`Cleared`).

The model follows the code where the code's behaviour is narrower or different
from what one might expect of such an editor:
- Opening an editor keeps whatever the buffer held. Only closing resets it.
- Save keeps the editor open and returns it to the list view.
- Deleting a position outside the list still pushes a list, one equal to the
  old list.
- Save with an edit position that has fallen off the end of the list changes
  nothing. This can happen after "Clear Resume" during an edit: `map` then
  matches no position.
- `toggleEditMode` does not check whether the list view is showing.

## Model

| member | source | states |
|---|---|---|
| `Records.Assign` | src/App.jsx:63-66 | `obj[k] = v`: afterwards `k` reads `v` and every other key reads as before. An existing key keeps its position. A new key is added at the end of the key order. |
| `Records.LookupAbsent` | src/App.jsx:87 | A key that is absent from a record reads as `""`. |
| `Records.LookupAt` | src/App.jsx:87 | If a record's keys are distinct, looking up the key of entry `i` gives the value of entry `i`. |
| `Records.BuildRecord` | src/App.jsx:98-101 | The `forEach` loop that builds the entry from the buffer computes exactly `Materialise` of the buffer. |
| `Records.MaterialiseKeys` | src/App.jsx:98-101 | If the labels are distinct, the built record's keys are the buffer labels, in buffer order. |
| `Records.MaterialiseLookup` | src/App.jsx:98-101 | If the labels are distinct, each buffer label reads back as its own field's value. |
| `Records.MaterialiseAbsent` | src/App.jsx:98-101 | Every key that is not a buffer label reads as `""` in the built record. |
| `Records.MaterialiseShape` | src/App.jsx:63-66 | The live record pushed by the personal-info editor has exactly the schema labels as keys, each mapped to its buffer value. No other key has a value. |
| `Records.MaterialiseIsPairs` | src/App.jsx:98-101 | If the labels are distinct, the built record is the buffer paired entry by entry: label and value, in buffer order. |
| `Records.Cleared` | src/App.jsx:116 | The cleared buffer has the schema labels in schema order, and every value is `""`. |
| `Records.Populated` | src/App.jsx:85-88 | The buffer loaded for editing has the schema labels in schema order. Each value is `item[label]`, or `""` when the label is absent. |
| `Records.SetField` | src/App.jsx:57-58 | `handleChange` sets one value. The buffer length, every label and every other field are unchanged. |
| `Records.EditRoundTrip` | src/App.jsx:84-88 | Editing a record that the editor built refills the buffer with exactly the fields it was built from. |
| `Records.SaveUnchangedRoundTrip` | src/App.jsx:97-106 | Saving such a record without changing anything writes back the same record. |
| `ListOps.RemoveAt` | src/App.jsx:73 | After the positional `filter`, the list is one shorter if the index is in range, and the same length otherwise. |
| `ListOps.RemoveAtSpec` | src/App.jsx:73 | An index in range removes exactly that element and keeps the relative order of all the others. An index out of range leaves the list equal to what it was. |
| `ListOps.ReplaceAtSpec` | src/App.jsx:106 | The positional `map` is the sequence update at an index in range. At an index out of range it is the identity. |
| `ListOps.SaveListSpec` | src/App.jsx:103-110 | With `editIndex = -1`, Save appends after the unchanged items. With an index in range, it replaces that item and keeps the rest. With an index past the end, it changes nothing. |
| `Preview.ShownEntries` | src/App.jsx:123-129 | The filtered entries are no more than the item has, and each has a display label and a non-empty value. |
| `Preview.PreviewFields` | src/App.jsx:122-131 | The preview has no more values than the item has entries, and none of its values is empty. |
| `Preview.PreviewSingle` | src/App.jsx:122-131 | A single entry previews as its value if it has a display label and a non-empty value, and as nothing otherwise. |
| `Preview.ShownConcat` | src/App.jsx:123-129 | The filter distributes over concatenation of records. |
| `Preview.PreviewConcat` | src/App.jsx:122-131 | The preview of `a + b` is the preview of `a` followed by the preview of `b`. So the values keep the item's key order. |
| `Preview.PreviewMember` | src/App.jsx:122-131 | A value is in the preview if and only if some entry with a display label and that non-empty value carries it. |
| `Preview.RenderJoin` | src/App.jsx:190-193 | The rendered spans read as the values joined by " · ". A separator comes between consecutive values only, never after the last. |
| `Preview.Section` | src/App.jsx:222-234 | A CV section shows its placeholder if and only if its list is empty. Otherwise it shows one entry per item. |
| `Editor.Panel` | src/App.jsx:143-173 | The form and the list are never visible together. Exactly one of them is visible when the editor is open, and neither when it is closed. Only a dynamic editor shows the list. The Save button is shown if and only if a dynamic form is shown. Its caption is "Update Item" when `editIndex > -1` and "Save" otherwise. |
| `Editor.Store.constructor` | src/App.jsx:347-351 | The store starts with an empty personal-info record and four empty lists. |
| `Editor.Store.SetList` | src/App.jsx:348-351 | A list setter replaces that one list. The other lists and personal info are unchanged. |
| `Editor.Store.SetPersonalInfo` | src/App.jsx:347 | The personal-info setter replaces the record. The lists are unchanged. |
| `Editor.Store.Clear` | src/App.jsx:354-361 | `handleClearResume`: personal info becomes the empty record, and all four lists become empty. |
| `Editor.ListEditor.constructor` | src/App.jsx:39-43 | A new editor is closed, holds the cleared buffer, is not in edit mode and has `editIndex = -1`. |
| `Editor.ListEditor.ToggleDropdown` | src/App.jsx:46-54 | Flips `isOpen` and leaves `editMode = false` and `editIndex = -1`. The buffer is reset to the defaults only when closing. Opening keeps it. The store is untouched. |
| `Editor.ListEditor.HandleChange` | src/App.jsx:56-69 | Sets the buffer value at `index`. A list editor leaves the store untouched. The personal-info editor also writes the built record into the store at once. No list changes. |
| `Editor.ListEditor.DeleteItem` | src/App.jsx:71-76 | The slot's list becomes `RemoveAt` of its current value. Every other slot and all editor state are unchanged. |
| `Editor.ListEditor.ToggleEditMode` | src/App.jsx:78-95 | Sets `editMode` and `editIndex = index`. The buffer is loaded from `items[index]` when `index > -1`, and cleared for `-1`. `isOpen` is unchanged. |
| `Editor.ListEditor.Save` | src/App.jsx:97-120 | The slot's list becomes `SaveList` of the old list, the old `editIndex` and the built buffer. Afterwards the buffer is cleared, `editMode = false`, `editIndex = -1`, and `isOpen` is unchanged. Other slots are unchanged. |
| `Walkthrough.AddFirstEducation` | src/App.jsx:97-110 | Adding College "Stanford", Degree "MS" and Graduation Date "2024-06" to an empty education list (schema at lines 415-419) gives exactly that one record. |
| `Walkthrough.StanfordPreview` | src/App.jsx:122-131 | That record previews as `["Stanford", "MS"]` and renders as "Stanford · MS". |
| `Walkthrough.EditEducation` | src/App.jsx:78-120 | Editing item 0 and changing Degree to "PhD" leaves one record, with Degree changed and the other fields kept. |
| `Walkthrough.DeleteEducation` | src/App.jsx:71-76 | Deleting item 0 empties the list, and the education section then shows its placeholder. |
| `Walkthrough.CloseWithoutSave` | src/App.jsx:46-69 | Opening a list editor, typing into it and closing it leaves the store unchanged and the buffer cleared. |

Every handler method also keeps `ListEditor.Valid()`. Valid says that the
buffer labels equal the schema, in schema order, and that `!editMode ==>
editIndex == -1`. Together with `Panel`, this means the form and the list are
never shown together.

## Left out

- Rendering is not modelled: JSX markup, CSS classes, the Tailwind script tag and the header's arrow glyph. Only which panel is visible and the Save button's caption are kept (`Editor.Panel`).
- The `FieldInput` widget is treated as something that reports `(index, value)` to `handleChange`, and nothing more.
- A field's `type`, `options` and `placeholder` are not modelled. They affect only rendering.
- The `CVPreview` layout is not modelled. It shows fixed labels. Only its empty-section check is kept (`Preview.Section`).
- `window.print()` is not modelled. It is a browser I/O call.
- React's asynchronous, batched state updates are not modelled. Each handler is one atomic transition from the pre-state to the post-state.
- `Object.entries` lists integer-like keys first, in numeric order. The model keeps plain insertion order. No schema label is integer-like.
- `Editor.ListEditor.HandleChange`: requires `index < |fields|`. In the source, an index out of range would grow the buffer, and the widget never reports one.
- `Editor.ListEditor.ToggleEditMode`: requires `-1 <= index < |items|`. The source dereferences `undefined` and fails for an index past the end. The buttons only pass -1 or a listed position.
- `Editor.ListEditor.Save`, `Editor.ListEditor.DeleteItem` and `Editor.ListEditor.ToggleEditMode` require a dynamic editor. Their buttons are rendered only for dynamic editors (src/App.jsx:159, 173).
- The model does not cover what these handlers would do to the personal-info slot.
