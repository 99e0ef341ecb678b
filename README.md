# Copilot operation editor — converter and operator sheet, in Dafny

This project models two parts of the MAA Copilot front end's operation editor and
proves what they promise.

- **The document converter** (`src/components/editor/converter.ts`):
  - `toEditableOperation` clones an imported operation and gives an `_id` from lodash's
    `uniqueId` to every action, operator, group and group member, in that order. It also
    rewrites each action's `type`, and a deployment's `direction`, into canonical form.
  - `toMaaOperation` clones the edited operation and defaults `minimumRequired` to
    `v4.0.0`. It deletes `_id` and the leaked `id` from every item and converts all keys
    to snake case.
  - `patchOperation` fills an empty `doc.details` from `doc.title`, in place.
- **The operator sheet** (`src/components/editor/operator/sheet/SheetOperator.tsx`):
  - the roster with off-roster ("custom") operators merged in front;
  - the profession and sub-profession filters;
  - the "is selected" test;
  - the box and skill click rules;
  - select-all and cancel-all, and when their buttons are disabled;
  - 60-per-page pagination, which starts over whenever a filter changes.

Files:

- `json.dfy` (module `Json`): JSON values as `JSON.parse` produces them.
  - Objects are maps from keys to values.
  - Integers stand in for numbers.
  - JavaScript truthiness, property read, assignment and `delete`.
- `unique_id.dfy` (module `UniqueId`): lodash's `uniqueId()` as an `IdCounter` object.
  - Its counter is bumped before each call, and the id is the counter's decimal string.
  - Decimal strings are proved to parse back and to be injective, so distinct counters give distinct ids.
- `key_renaming.dfy` (module `KeyRenaming`): `snakeCaseKeys(value, { deep: true })`.
  - The conversion of a single key is a parameter `snake`.
  - `IsRenaming` states what a deep renaming is.
  - `RenameKeys` performs one, rebuilding each object key by key.
- `converter.dfy` (module `Converter`): the three converter functions.
  - Each function is an imperative method over a `Document` object, proved equal to a specification function:
    - `Editable` for the import;
    - `Exportable` followed by a renaming for the export;
    - `Patched` for the patch.
  - Lemmas state what those functions promise: fresh distinct ids, normalised actions, nothing else changed, no ids left in the document handed to the key conversion, the import/export round trip up to that conversion, and patch idempotence.
- `sheet_operator.dfy` (module `SheetOperator`): the sheet's list logic as functions over sequences of records.
  - `cancelAll` and `selectAll` are loops.
  - The `Sheet` class holds the selected profession, sub-profession and page index, with the click handlers as methods.
  - The `submitOperator` and `removeOperator` callbacks and the toaster are the caller's. The handlers return the `Command` they would issue.

Cancel-all does less than its button's title, which counts every assigned operator,
suggests. The model follows the code:

- it removes only operators listed under the current filters;
- it removes only directly assigned operators, never group members;
- it removes only the first assigned operator of each listed name.

## Model

| member | source | states |
|---|---|---|
| UniqueId.DecimalString | src/components/editor/converter.ts:28 | an id is a non-empty string of decimal digits with no leading zero |
| UniqueId.ParseDecimalString | src/components/editor/converter.ts:28 | parsing an id gives back the counter value it was made from |
| UniqueId.DecimalStringInjective | src/components/editor/converter.ts:28 | two ids are equal exactly when their counter values are |
| UniqueId.IdCounter.constructor | src/components/editor/converter.ts:28 | the id counter starts at zero |
| UniqueId.IdCounter.UniqueId | src/components/editor/converter.ts:28 | each call bumps the counter by one and returns the new value as a decimal string |
| KeyRenaming.RenameKeys | src/components/editor/converter.ts:78 | the deep snake-casing yields a renaming of the document: lists and scalars kept, every object's keys converted, each member renamed in turn |
| KeyRenaming.RenamedKeys | src/components/editor/converter.ts:78 | an object's keys after renaming are exactly the converted images of its keys |
| KeyRenaming.RenamingIdentity | src/components/editor/converter.ts:78 | a conversion that changes no key leaves the document as it is |
| KeyRenaming.RenamingUnique | src/components/editor/converter.ts:78 | when no two keys convert to the same key, the renamed document is unique |
| Converter.Document.constructor | src/components/editor/converter.ts:14-16 | a document holds the value it was made with |
| Converter.Numbered | src/components/editor/converter.ts:27-29 | the id pass over one list keeps its length |
| Converter.NumberedMembers | src/components/editor/converter.ts:25-29 | the id pass over the groups' members keeps the number of groups |
| Converter.NormalisedAll | src/components/editor/converter.ts:31-48 | the normalisation pass keeps the number of actions |
| Converter.AssignIds | src/components/editor/converter.ts:27-29 | each item of a list, in order, gets the next id drawn; the counter advances by the list's length |
| Converter.AssignMemberIds | src/components/editor/converter.ts:25-29 | each group's members, group after group, get the next ids drawn; the counter advances by the number of members |
| Converter.AssignListIds | src/components/editor/converter.ts:22-23 | the actions or the operators get ids when present as a list, and the document is otherwise unchanged |
| Converter.AssignGroupIds | src/components/editor/converter.ts:24-25 | the groups get ids, then their members do |
| Converter.GenerateIds | src/components/editor/converter.ts:19-29 | the id pass numbers actions, operators, groups and group members in that order, drawing one id per item |
| Converter.NormaliseActions | src/components/editor/converter.ts:31-48 | each action is normalised in place, in order |
| Converter.ToEditableOperation | src/components/editor/converter.ts:14-51 | the import leaves its argument unchanged, draws one id per item and returns the document with ids assigned and actions normalised |
| Converter.EditableLists | src/components/editor/converter.ts:19-48 | the imported lists are the source lists numbered from the counter's next value, with actions normalised |
| Converter.MemberItemsNumbered | src/components/editor/converter.ts:24-25 | numbering the groups themselves leaves their member lists unchanged |
| Converter.NumberedMembersAt | src/components/editor/converter.ts:25-29 | group `j`'s members are numbered after all members of the groups before it |
| Converter.MembersOfNumbered | src/components/editor/converter.ts:25-29 | the members after the pass are the members before it, numbered consecutively |
| Converter.EditableIds | src/components/editor/converter.ts:19-29 | after the import the `n`-th item visited carries the `n`-th id drawn, every item is still there, and no two items share an id |
| Converter.EditableActions | src/components/editor/converter.ts:31-48 | each action takes its canonical type when the type is recognised, and a deployment takes its canonical direction when the lookup finds one; nothing else but `_id` changes |
| Converter.EditableKeepsDocument | src/components/editor/converter.ts:17-29 | the import changes no document field besides its three lists, and keeps each list present or absent |
| Converter.EditableKeepsOperators | src/components/editor/converter.ts:27-29 | each operator only gains its `_id` |
| Converter.EditableKeepsGroups | src/components/editor/converter.ts:24-29 | each group only gains its `_id` and its members' ids |
| Converter.EditableKeepsMembers | src/components/editor/converter.ts:25-29 | each group member only gains its `_id` |
| Converter.StrippedAll | src/components/editor/converter.ts:71-76 | stripping a list keeps its length |
| Converter.StrippedMembers | src/components/editor/converter.ts:69-76 | stripping the groups' members keeps the number of groups |
| Converter.StripIds | src/components/editor/converter.ts:71-76 | `_id` and `id` are deleted from each item of a list, in order |
| Converter.StripListIds | src/components/editor/converter.ts:66-67 | the actions or operators are stripped when present as a list, and nothing else changes |
| Converter.StripMemberIds | src/components/editor/converter.ts:68-69 | the groups are stripped and then their members |
| Converter.ToMaaOperation | src/components/editor/converter.ts:56-79 | the export returns a deep key renaming of the document with `minimumRequired` defaulted and every id stripped |
| Converter.ExportLists | src/components/editor/converter.ts:63-76 | the exported lists are the stripped source lists, each present exactly when it was |
| Converter.ExportMinimumRequired | src/components/editor/converter.ts:61 | `minimumRequired` is kept when truthy and otherwise becomes `v4.0.0`, so the export always names one |
| Converter.ExportStripsIds | src/components/editor/converter.ts:63-76 | in the document handed to the key conversion no action, operator, group or group member carries `_id` or `id`, and every item is still there |
| Converter.ExportKeepsDocument | src/components/editor/converter.ts:59-76 | the export changes no document field besides `minimumRequired` and the three lists |
| Converter.ExportKeeps | src/components/editor/converter.ts:63-76 | each action, operator and group loses only `_id` and `id` (and a group its members' ids), in its place |
| Converter.ExportKeepsMembers | src/components/editor/converter.ts:69-76 | each group member loses only `_id` and `id`, in its place |
| Converter.ItemRoundTrip | src/components/editor/converter.ts:28 | deleting the ids of an item undoes giving it one |
| Converter.ActionRoundTrip | src/components/editor/converter.ts:28-48 | stripping an already canonical action after the import gives back the action |
| Converter.GroupRoundTrip | src/components/editor/converter.ts:25-29 | stripping a group and its members after the import gives back the group |
| Converter.RoundTrip | src/components/editor/converter.ts:14-79 | importing then exporting an id-free operation whose actions are canonical and which names its `minimumRequired` gives back its deep key renaming, for any key conversion |
| Converter.RoundTripIdentity | src/components/editor/converter.ts:14-79 | with the identity key conversion the round trip gives the operation back unchanged |
| Converter.PatchOperation | src/components/editor/converter.ts:84-90 | the patch updates the caller's document to the back-filled one |
| Converter.PatchedDetails | src/components/editor/converter.ts:87-89 | the patch leaves a document without `doc` alone, keeps truthy details, otherwise sets details to the title, and touches nothing else |
| Converter.PatchedDetailsSet | src/components/editor/converter.ts:87-89 | afterwards details are set exactly when the details or the title were |
| Converter.PatchIdempotent | src/components/editor/converter.ts:84-90 | patching twice gives the same document as patching once |
| SheetOperator.Filter | src/components/editor/operator/sheet/SheetOperator.tsx:82 | a filtered list holds every element that satisfies the test as often as the list does, and no other, so it is no longer than the list |
| SheetOperator.FilterSubsequence | src/components/editor/operator/sheet/SheetOperator.tsx:82 | filtering keeps the order of the elements it keeps |
| SheetOperator.Any | src/components/editor/operator/sheet/SheetOperator.tsx:170 | `some` is true exactly when an element satisfies the test |
| SheetOperator.Every | src/components/editor/operator/sheet/SheetOperator.tsx:181 | `every` is true exactly when all elements satisfy the test |
| SheetOperator.FindIndex | src/components/editor/operator/sheet/SheetOperator.tsx:158 | `findIndex` gives the first matching index, or -1 exactly when nothing matches |
| SheetOperator.IndexOfName | src/components/editor/operator/sheet/SheetOperator.tsx:158 | the index of the first assigned operator with a name, or -1 when there is none |
| SheetOperator.IndexOfId | src/components/editor/operator/sheet/SheetOperator.tsx:119 | the index of the first assigned operator with an `_id`, or -1 when there is none |
| SheetOperator.ProfessionChoices | src/components/editor/operator/sheet/SheetOperator.tsx:31-53 | the first profession tab is 'all', and a profession is offered exactly when it is 'all', 'others' or one of the game's |
| SheetOperator.SubProfessionChoices | src/components/editor/operator/sheet/SheetOperator.tsx:65-71 | the first sub-profession tab is 'all', and a sub-profession is offered exactly when it is 'all', 'selected' or one of the profession's own |
| SheetOperator.CustomOperators | src/components/editor/operator/sheet/SheetOperator.tsx:73-80 | there are no more custom entries than assigned operators |
| SheetOperator.MergedRoster | src/components/editor/operator/sheet/SheetOperator.tsx:72-81 | the merged list is the custom entries followed by the whole roster; custom entries have an empty sub-profession, are exactly the assigned names missing from the roster, and come from assigned operators |
| SheetOperator.CustomOperatorsInOrder | src/components/editor/operator/sheet/SheetOperator.tsx:73-80 | custom entries keep the order of the assigned operators they come from |
| SheetOperator.ProfFilteredEntries | src/components/editor/operator/sheet/SheetOperator.tsx:82-87 | 'all' keeps every entry; 'others' keeps exactly the entries whose sub-profession is 'notchar1' or empty; any other profession keeps exactly the entries named by one of its sub-professions; each kept entry occurs as often as in the merged roster, and order is kept |
| SheetOperator.InMembers | src/components/editor/operator/sheet/SheetOperator.tsx:95-97 | the flattened member list holds exactly the members of the groups |
| SheetOperator.SelectedIff | src/components/editor/operator/sheet/SheetOperator.tsx:92-99 | a name is selected exactly when an assigned operator or a member of some group carries it |
| SheetOperator.SubProfFilteredEntries | src/components/editor/operator/sheet/SheetOperator.tsx:101-111 | the second filter keeps a subsequence: 'all' keeps everything, 'selected' exactly the selected names, any other id exactly the entries of that sub-profession; each kept entry occurs as often as in the list |
| SheetOperator.HandleEvent | src/components/editor/operator/sheet/SheetOperator.tsx:113-135 | a box click removes the operator when it is assigned directly (by its `_id`'s index), warns when it is only in a group, and submits it when not selected; a skill click submits |
| SheetOperator.BoxClickRemovesClicked | src/components/editor/operator/sheet/SheetOperator.tsx:116-120 | with distinct ids, clicking an assigned operator's box removes that very operator |
| SheetOperator.WarningOnlyForGrouped | src/components/editor/operator/sheet/SheetOperator.tsx:116-125 | a warning is issued only for a name that no assigned operator has and some group member has |
| SheetOperator.SelectAll | src/components/editor/operator/sheet/SheetOperator.tsx:149-153 | select-all submits every listed entry once, in order |
| SheetOperator.CancelAll | src/components/editor/operator/sheet/SheetOperator.tsx:155-162 | cancel-all returns exactly `FoundIndices`: for each listed entry in turn, the index of the first assigned operator of its name, when there is one |
| SheetOperator.FoundIndicesFacts | src/components/editor/operator/sheet/SheetOperator.tsx:155-162 | the collected indices are no more than the listed entries, all within the assigned list, each found for a listed name, and one for every listed name that is assigned |
| SheetOperator.CancelAllOnePerEntry | src/components/editor/operator/sheet/SheetOperator.tsx:155-162 | two listed entries carrying one assigned name give that operator's index twice |
| SheetOperator.CancelAllTargets | src/components/editor/operator/sheet/SheetOperator.tsx:155-162 | each index cancel-all collects points at the first assigned operator carrying a listed name |
| SheetOperator.BulkButtons | src/components/editor/operator/sheet/SheetOperator.tsx:169-183 | cancel-all is disabled exactly when no listed operator is selected, select-all exactly when all are; both are disabled together exactly when the list is empty |
| SheetOperator.SelectedTabSelectAllDisabled | src/components/editor/operator/sheet/SheetOperator.tsx:181-183 | on the 'selected' tab select-all is always disabled |
| SheetOperator.LastIndex | src/components/editor/operator/sheet/SheetOperator.tsx:139 | the pages shown hold a positive multiple of 60 entries |
| SheetOperator.Visible | src/components/editor/operator/sheet/SheetOperator.tsx:281-282 | the entries shown are the first `min((pageIndex+1)*60, length)` of the list |
| SheetOperator.ShowMoreCounts | src/components/editor/operator/sheet/SheetOperator.tsx:198-215 | "show more" is offered exactly while entries are hidden, and announces how many; otherwise all entries are shown, and "collapse" is offered exactly when they span more than a page |
| SheetOperator.NextPage | src/components/editor/operator/sheet/SheetOperator.tsx:213 | one more page keeps what was shown and adds up to 60 entries |
| SheetOperator.FirstPage | src/components/editor/operator/sheet/SheetOperator.tsx:139-140 | the first page shows the first 60 entries; back-to-top is enabled exactly past it |
| SheetOperator.Sheet.constructor | src/components/editor/operator/sheet/SheetOperator.tsx:65-66 | the sheet opens on the first profession tab and its first sub-profession tab, both 'all', at the first page, with both selections among the tabs offered |
| SheetOperator.Sheet.Shown | src/components/editor/operator/sheet/SheetOperator.tsx:68-111 | the entries shown are a subsequence of the merged roster |
| SheetOperator.Sheet.ChooseProfession | src/components/editor/operator/sheet/SheetOperator.tsx:224-232 | a click on an offered profession selects it and resets the sub-profession to 'all', so the selected sub-profession stays among the tabs offered; pagination starts over when either changed |
| SheetOperator.Sheet.ChooseSubProfession | src/components/editor/operator/sheet/SheetOperator.tsx:254-261 | a click on an offered sub-profession selects it and keeps both selections among the tabs offered; pagination starts over when it changed |
| SheetOperator.Sheet.ShowMore | src/components/editor/operator/sheet/SheetOperator.tsx:213 | "show more" moves to the next page and changes no filter |
| SheetOperator.Sheet.ResetPagination | src/components/editor/operator/sheet/SheetOperator.tsx:142-145 | resetting goes back to the first page and changes no filter |

## Left out

- Object key order: objects are maps, so the order of keys inside an object is not modelled. The order of list elements is.
- KeyRenaming.RenameKeys: when two keys of one object convert to the same snake-case key, the model says only that one of the two members survives, not which one.
- The case conversion of a single key (`snakecase-keys`), `findActionType` and `findOperatorDirection` are not visible. They are parameters of the model.
- The id counter stands in for lodash's module-wide counter. Ids drawn elsewhere in the application between two imports are not modelled.
- `JSON.parse(JSON.stringify(...))` is modelled as a copy by value. Values that JSON cannot hold (`undefined` members, functions, dates) and floating-point numbers are not modelled; numbers are integers.
- Converter.ToEditableOperation and Converter.ToMaaOperation require the document's shape that their TypeScript types promise:
  - `actions` is a list of objects;
  - `opers` and `groups` are absent, null or lists;
  - the export's lists hold no nested lists.
  An ill-typed document, which would make the source throw or behave on arrays differently, is not modelled.
- Converter.PatchOperation requires that a truthy `doc` is an object. When `title` is absent, the back-fill assigns `undefined`, which the serialised document drops; the model removes `details`.
- `MinimumRequired.V4_0_0` is taken to be the string `v4.0.0`; `models/operation` is not part of this model.
- SheetOperator.HandleEvent: the command issued by a box click carries the index of the operator whose `_id` matches. When none matches, that index is -1; what `removeOperator(-1)` does is not modelled.
- SheetOperator.SelectAll: `submitOperator` deduplicates or not in code that is not visible, so the model makes no claim that select-all only adds unselected operators. The roster entry it submits is modelled by its name alone.
- `submitOperator`, `removeOperator` and the toaster are the caller's: the model returns the commands they receive, not their effect on the operation.
- A group's `opers` list is modelled without holes. The source skips `undefined` members with `item?.name`.
- SheetOperator.SubProfFiltered: the source memoises the sub-profession filter on the selected sub-profession and the profession-filtered list only. On the 'selected' tab, a change to the groups alone leaves the shown list stale until one of those changes. The model always recomputes the list from the current groups.
- React's re-rendering is not modelled. A filter counts as changed when the newly chosen option differs from the current one (the options are constant objects compared by identity). `scrollIntoView`, the rendering, icons and titles are not modelled either.
- `src/components/editor/OperationEditor.tsx` and `src/main.tsx` are form binding, fetching, fuzzy search and start-up code; they are not part of this model.
