# ASLAN decoder, modelled in Dafny

ASLAN is a delimiter-based text format. A text-generating model can stream
structured data as plain text in this format. Each token has the shape
`[<prefix><kind>…]`, where the prefix defaults to `aslan`. The kind letters
are:

- `d` data (a named field, or an element separator inside an array);
- `o` object and `a` array, which both open and close containers;
- `i` instruction, which attaches metadata to the field being written;
- `p` part, which turns a field into an "implicit array" of parts;
- `v` void (the field becomes null);
- `c` comment;
- `e` escape, which opens or closes a named region where tokens are text;
- `g` go and `s` stop, which bound documents in the strict modes.

This project models the two implementations of the incremental decoder. It
also models the bounded recent-items history they use, and the JSON-to-ASLAN
converter.

- **TypeScript decoder** (`typescript/src/aslan-parser.ts`).
  - Class `AslanTs.ASLANParser` holds the decoder's fields and has one
    method per handler.
  - Pure functions in `AslanTsSpec` give the whole decoder state after each
    handler.
  - Every method of the class ensures that its new state is the matching
    `AslanTsSpec` function of its old state.
  - The decoder's properties are proved about those functions, in
    `AslanTsProps`.
  - JavaScript objects and arrays are values. When the current container is
    a JavaScript array, writing at an array index `n` (0 to 2^32 - 2) leaves
    undefined holes before `n`, as a JavaScript array does. A write at any
    other key of an array leaves the array unchanged (see "## Left out").
- **Rust decoder** (`rust/src/aslan_parser.rs`), in `AslanRs`, `AslanRsSpec`
  and `AslanRsProps`.
  - The layout is the same as the TypeScript one.
  - The Rust frames hold clones of their containers. `sync_stack_to_root`
    copies every frame back into its parent and into the last document.
    That loop is a method proved against the function `Synced`.
  - Writing past the end of an array pads it with nulls.
- **Shared definitions** (`AslanCommon`): token kinds and name grammar, the
  open-or-close decision for `o`/`a` tokens, and the insertion policies.
  `Decimal` covers key text and the three integer readers: `parseInt`,
  `parse::<i64>` and `parse::<usize>`.
- **Recent-items history** (`typescript/src/recent-items.ts`,
  `rust/src/recent_items.rs`). These are the classes
  `RecentItemsTs.RecentItems` and `RecentItemsRs.RecentItems`, specified by
  the functions of `History`.
- **Converter** (`json2aslan/src/convert.ts`), in `Json2Aslan`.
  - The converter's explicit-stack loop is a method.
  - It is proved equal to a recursive encoding, `Expected`.
  - `Json2AslanFixed` holds the corrected encoding (see Findings).

The decoder is a character-driven state machine. `Step` gives the state
after one character, and `Run` the state after a string. `RunAppend` proves
that running `a + b` is running `a` and then `b`. Behaviour over several
characters is stated with `Run`: recognising an opening, reading a name,
hiding or keeping a later token.

## Model

Every `AslanTsSpec.X` and `AslanRsSpec.X` function that has no row of its own
is the definition named by the contract of method `X` of the class in the row
for that method.

| member | source | states |
|---|---|---|
| History.Added | typescript/src/recent-items.ts:10-16 | the new item comes first; the earlier items follow in order; the length grows by one unless that would pass the maximum size |
| History.Without | typescript/src/recent-items.ts:47-52 | filtering out the excluded items never lengthens the history |
| History.WithoutMembers | typescript/src/recent-items.ts:47-52 | an item survives the filter exactly when it is in the history and not excluded |
| History.Nth | typescript/src/recent-items.ts:26-31 | the n-th most recent item exists exactly when 1 <= n <= length, and it is the item at position n-1 |
| History.AddedKeepsBound | rust/src/recent_items.rs:29-34 | adding keeps the history within its maximum size; with a positive maximum the added item is first |
| History.WithoutAppend | typescript/src/recent-items.ts:47-52 | filtering a concatenation filters each half |
| History.WithoutPrefix | typescript/src/recent-items.ts:47-52 | filtering the history is filtering its first i items and then the rest |
| History.WithoutSnoc | typescript/src/recent-items.ts:47-52 | extending the scanned prefix by one item adds that item to the filtered list exactly when it is not excluded |
| History.RankAt | typescript/src/recent-items.ts:47-55 | a non-excluded item at position k has rank (the number of non-excluded items before it) + 1 |
| History.FirstNotInIsRankOne | rust/src/recent_items.rs:58-68 | the first non-excluded item is the rank-one item, so the first-not-in query agrees with rank 1 |
| History.WithoutNone | rust/src/recent_items.rs:61-67 | when every item is excluded nothing survives the filter |
| History.WithoutEmpty | typescript/src/recent-items.ts:33-40 | filtering with an empty excluded set leaves the history unchanged |
| RecentItemsTs.RecentItems.constructor | typescript/src/recent-items.ts:5-8 | a new history is empty and keeps the given maximum size |
| RecentItemsTs.RecentItems.Default | typescript/src/recent-items.ts:5-8 | the default maximum size is 5 |
| RecentItemsTs.RecentItems.Add | typescript/src/recent-items.ts:10-16 | the new list is `Added` of the old one: the item first, the oldest item dropped beyond the maximum, and the bound kept |
| RecentItemsTs.RecentItems.GetItems | typescript/src/recent-items.ts:18-20 | returns the items, most recent first |
| RecentItemsTs.RecentItems.GetMostRecent | typescript/src/recent-items.ts:22-24 | some item exactly when the history is non-empty, and then the first item |
| RecentItemsTs.RecentItems.GetNthMostRecent | typescript/src/recent-items.ts:26-31 | some item exactly when 1 <= n <= length, and then the item at position n-1 |
| RecentItemsTs.RecentItems.GetMostRecentNotIn | typescript/src/recent-items.ts:33-40 | the loop returns the rank-one non-excluded item, or none |
| RecentItemsTs.RecentItems.GetNthMostRecentNotIn | typescript/src/recent-items.ts:42-58 | an error exactly when n < 1; otherwise the loop's count returns the n-th non-excluded item, or none |
| RecentItemsRs.RecentItems.constructor | rust/src/recent_items.rs:20-25 | a new history is empty and keeps the given maximum size |
| RecentItemsRs.RecentItems.Default | rust/src/recent_items.rs:12-16 | the default history is empty with maximum size 5 |
| RecentItemsRs.RecentItems.Add | rust/src/recent_items.rs:29-34 | the new list is `Added` of the old one: the item first, trimmed to the maximum, and the bound kept |
| RecentItemsRs.RecentItems.GetItems | rust/src/recent_items.rs:37-42 | returns the items, most recent first |
| RecentItemsRs.RecentItems.GetMostRecent | rust/src/recent_items.rs:45-47 | some item exactly when the history is non-empty, and then the first item |
| RecentItemsRs.RecentItems.GetNthMostRecent | rust/src/recent_items.rs:50-55 | some item exactly when 1 <= n <= length, and then the item at position n-1 |
| RecentItemsRs.RecentItems.GetMostRecentNotIn | rust/src/recent_items.rs:58-68 | the loop returns the rank-one non-excluded item, or none |
| RecentItemsRs.RecentItems.GetNthMostRecentNotIn | rust/src/recent_items.rs:71-89 | none for n < 1; otherwise the n-th non-excluded item, or none |
| RecentItemsRs.MaxSizeExample | rust/src/recent_items.rs:106-113 | adding 1, 2, 3 and 4 with maximum size 3 leaves [4, 3, 2] |
| RecentItemsRs.NthNotInExample | rust/src/recent_items.rs:129-143 | in [4, 3, 2, 1] without {4, 2}, ranks 1, 2 and 3 give 3, 1 and none |
| Decimal.DigitValue | typescript/src/aslan-parser.ts:1497 | a decimal digit's value is below 10 |
| Decimal.DigitChar | rust/src/aslan_parser.rs:1664 | the digit character of a value below 10 is a digit with that value |
| Decimal.NatText | typescript/src/aslan-parser.ts:1540 | the decimal text of a number is non-empty, all digits, and has no leading zero |
| Decimal.NatTextRoundTrip | typescript/src/aslan-parser.ts:1540 | reading back the decimal text of n gives n |
| Decimal.IntTextSign | rust/src/aslan_parser.rs:1664 | the text of an integer starts with `-` exactly when it is negative |
| Decimal.MinusTail | rust/src/aslan_parser.rs:1664 | removing the sign of a negative key's text leaves the text of its magnitude |
| Decimal.IntTextInjective | rust/src/aslan_parser.rs:1664 | two integer keys with the same text are equal, so index keys are never confused |
| Decimal.DigitRun | typescript/src/aslan-parser.ts:1497 | the leading run of digits is the longest prefix made only of digits |
| Decimal.RadixDigitValue | typescript/src/aslan-parser.ts:1497 | a radix-10 digit is below 10, a radix-16 digit below 16 |
| Decimal.ParseIntLenient | typescript/src/aslan-parser.ts:1497 | without a `0x`/`0X` lead, `parseInt` gives a number exactly when the name starts with a digit, and that number is the value of the leading decimal digits; with such a lead it gives a number exactly when a hexadecimal digit follows, and that number is the value of the hexadecimal digits after the lead |
| Decimal.DigitRunWhole | typescript/src/aslan-parser.ts:1497 | a name made only of digits is read to its end |
| Decimal.LenientReadsNatText | typescript/src/aslan-parser.ts:1497 | `parseInt` reads the decimal text of every natural number back as that number |
| Decimal.ParseI64Strict | rust/src/aslan_parser.rs:1616 | `parse::<i64>` on a name succeeds exactly when the name is all digits and fits in i64, and gives its value |
| Decimal.DecimalDigitsAgree | typescript/src/aslan-parser.ts:1497 | reading in radix 10 and reading decimal digits agree |
| Decimal.ParsersAgreeOnDigits | rust/src/aslan_parser.rs:1616 | on a name that `parse::<i64>` accepts, `parseInt` gives the same index |
| Decimal.ParseUsizeStrict | rust/src/aslan_parser.rs:1525 | `parse::<usize>` succeeds exactly when the text is all digits and fits in usize, and gives its value |
| Decimal.IndexTextAsUsize | rust/src/aslan_parser.rs:1525 | the text of a non-negative index reads back as that index; the text of a negative index (the -1 of a fresh array) is not a usize |
| AslanCommon.KindOf | typescript/src/aslan-parser.ts:463-513 | exactly the ten letters d, o, i, a, c, e, p, v, g and s select a token kind |
| AslanCommon.InsertionFromArg | typescript/src/aslan-parser.ts:891-905 | the first argument `a`, `f` or `l` selects Append, KeepFirst or KeepLast, and each is selected by that letter only |
| AslanCommon.ObjectSafeMeaning | typescript/src/aslan-parser.ts:596-605 | a container is content; null and missing are not; a string is content when non-empty, or non-blank when whitespace collapses |
| AslanCommon.NameStepOf | typescript/src/aslan-parser.ts:650-727 | a character extends a name exactly when it is a name character and not a leading `_`; `]` (or `:` after a non-empty name, where arguments are allowed) ends it unless it ends with `_` |
| AslanCommon.NameAcceptedIffValid | typescript/src/aslan-parser.ts:828-878 | a name is accepted character by character and then closed by `]` exactly when it is made of letters, digits and `_` and neither starts nor ends with `_` (the empty name included) |
| AslanCommon.ContainerDecision | typescript/src/aslan-parser.ts:556-589 | an `o`/`a` token opens exactly when the previous material token is data and the field is empty or a container; otherwise it re-opens a repeated key, closes a non-root frame, or does nothing |
| AslanCommon.OpensIff | rust/src/aslan_parser.rs:729-750 | the token opens a container exactly when data came before and the field is empty, or data came before and the field is a container, or the key is repeated; at the root it never closes |
| AslanCommon.ArrayThenObjectCloses | json2aslan/src/convert.ts:32-43 | after `[Pa]` directly followed by `[Po]`, on a key not seen before in a frame above the root, the `[Po]` closes instead of opening |
| AslanCommon.ArrayDataObjectOpens | json2aslan/test/convert.spec.ts:14-17 | after `[Pa][Pd][Po]` on an empty field the `[Po]` opens |
| AslanTsSpec.Holes | typescript/test/array.spec.ts:35-47 | the padding of a JavaScript array write is n undefined holes |
| AslanTsSpec.Put | typescript/test/array.spec.ts:35-47 | a write keeps the container's kind; an array write at an index n from 0 to 2^32 - 2 grows the array to n+1, so an array never grows past 2^32 - 1 elements; a write at a negative key or at 2^32 - 1 or more leaves the array unchanged |
| AslanTsSpec.PutGet | typescript/src/aslan-parser.ts:1450 | reading back a written key gives the written value; every other key reads as before |
| AslanTsSpec.PopKeepsDocument | typescript/src/aslan-parser.ts:578-582 | popping a frame keeps the assembled document, because the parent already holds the child container |
| AslanTsSpec.EmitPrimitive | typescript/src/aslan-parser.ts:1322-1344 | content events of a field only append events; nothing else changes |
| AslanTsSpec.EmitImplicit | typescript/src/aslan-parser.ts:1346-1373 | content events of an implicit array's last part only append events; nothing else changes |
| AslanTsSpec.EmitEnd | typescript/src/aslan-parser.ts:1244-1256 | end events only append events; nothing else changes |
| AslanTsSpec.EmitEndData | typescript/src/aslan-parser.ts:1258-1320 | the end-data event only appends events; nothing else changes |
| AslanTsSpec.ContentEvents | typescript/src/aslan-parser.ts:1326-1343 | at most one event per registered instruction, each a content event for this tag, key, part, value, path and document index |
| AslanTsSpec.LastPartOf | typescript/src/aslan-parser.ts:1357-1367 | an array or string has a last part; in a non-empty array it is the last element, at index length - 1 |
| AslanTsSpec.Infos | typescript/src/aslan-parser.ts:1295-1299 | each registered instruction becomes one name/args/index record, in order |
| AslanTsSpec.Parts | typescript/src/aslan-parser.ts:1301-1313 | one content part per element, carrying its value, its index and the instructions grouped under that index (or none) |
| AslanTsSpec.EndDataEventOf | typescript/src/aslan-parser.ts:1258-1320 | an end-data event is built exactly when the field is not an object or is an implicit array, and it names the current key |
| AslanTsSpec.WithoutKey | typescript/src/aslan-parser.ts:1475-1479 | the filtered instructions are exactly those of other keys |
| AslanTsSpec.ContainerActionOf | typescript/src/aslan-parser.ts:556-589 | a close is only chosen when a frame other than the root is open |
| AslanTsSpec.RunAppend | typescript/src/aslan-parser.ts:266-270 | feeding `a + b` is feeding `a` and then `b`, so streaming in chunks matches one call |
| AslanTs.GroupByPartIndex | typescript/src/aslan-parser.ts:1291-1300 | the loop builds `GroupByPart`: the instructions grouped by part index, in order |
| AslanTs.ContentParts | typescript/src/aslan-parser.ts:1301-1313 | the loop builds `Parts`: one part per element with its grouped instructions |
| AslanTs.ContentEventsFor | typescript/src/aslan-parser.ts:1326-1343 | the loop emits `ContentEvents`: one event per instruction of this key and part, skipping the rest |
| AslanTs.ASLANParser.constructor | typescript/src/aslan-parser.ts:229-253 | the fields are the initial state: one root frame holding the default field, locked under strict start, and the root listed as the first document |
| AslanTs.ASLANParser.GetResults | typescript/src/aslan-parser.ts:1556-1558 | the finished documents, then the document being built once it is listed |
| AslanTs.ASLANParser.Get2ndMostRecentMaterialDelimiter | typescript/src/aslan-parser.ts:1605-1610 | the second most recent token kind that is not a comment or an escape |
| AslanTs.ASLANParser.GetCurrentPath | typescript/src/aslan-parser.ts:1531-1544 | the loop collects the key of every frame, skipping the default field name and writing indices as decimal text |
| AslanTs.ASLANParser.ExitDelimiterIntoData | typescript/src/aslan-parser.ts:276-281 | the buffered token text and the character become text; the buffer and token are cleared and data mode resumes |
| AslanTs.ASLANParser.EmitContentEventsForPrimitive | typescript/src/aslan-parser.ts:1322-1344 | the new state is `EmitPrimitive`: the content events of part 0, only if that event kind is emitted |
| AslanTs.ASLANParser.EmitContentEventsForImplicitArray | typescript/src/aslan-parser.ts:1346-1373 | the new state is `EmitImplicit`: the content events of the last part |
| AslanTs.ASLANParser.EmitEndEventsIfRequired | typescript/src/aslan-parser.ts:1244-1256 | the new state is `EmitEnd`: end events for a scalar field and for an implicit array |
| AslanTs.ASLANParser.EmitEndDataEventsIfRequired | typescript/src/aslan-parser.ts:1258-1320 | the new state is `EmitEndData`, which appends `EndDataEventOf` when that event is built |
| AslanTs.ASLANParser.EndDataEvent | typescript/src/aslan-parser.ts:1399-1425 | the event handed to end-data listeners is `EndDataEventOf` of the current state |
| AslanTs.ASLANParser.StoreCurrentValue | typescript/src/aslan-parser.ts:1435-1464 | the new state is `StoreCurrentValue`: a void field becomes null; pending text is appended to the field or to its last part unless the key is locked; the pending text is cleared |
| AslanTs.ASLANParser.StartString | typescript/src/aslan-parser.ts:1443-1445 | a falsy field becomes the empty string before text is appended |
| AslanTs.ASLANParser.StorePrimitive | typescript/src/aslan-parser.ts:1446-1452 | pending text is appended to a non-object field and its content events follow |
| AslanTs.ASLANParser.StoreImplicit | typescript/src/aslan-parser.ts:1453-1461 | for an unlocked implicit key the new state is `AppendToLastPart`, including the `NaN` write when the key now holds an object; any other key is left alone |
| AslanTs.ASLANParser.AppendToLastPart | typescript/src/aslan-parser.ts:1457-1460 | the new state is `AppendToLastPart`: the last part becomes its `+=` text (an array part joined by `,`) followed by the pending text; an object field gets that text at key `NaN`; content events follow |
| AslanTs.ASLANParser.SetDataInsertionType | typescript/src/aslan-parser.ts:1466-1490 | the new state is `SetDataInsertionType`: policy fixed at first use; KeepLast clears the field and its instructions, KeepFirst locks it |
| AslanTs.ASLANParser.NextKey | typescript/src/aslan-parser.ts:1492-1529 | the new state is `NextKey`: the next array index, or the named key with the duplicate flag |
| AslanTs.ASLANParser.CreateNew | typescript/src/aslan-parser.ts:607-622 | the new state is `CreateNew`: an empty object or array at the key and a fresh frame on top |
| AslanTs.ASLANParser.RegisterInstructionIfAllowed | typescript/src/aslan-parser.ts:693-715 | the new state is `CompleteInstruction`: the instruction is registered and its content events are emitted, unless the key is a repeated KeepFirst key |
| AslanTs.ASLANParser.Close | typescript/src/aslan-parser.ts:1546-1550 | the new state is `Close`: end events, the end-data event, then the pending text stored |
| AslanTs.ASLANParser.Reset | typescript/src/aslan-parser.ts:1560-1583 | the new state is `Reset`: a single fresh root frame with the default field |
| AslanTs.ASLANParser.NextDocument | typescript/src/aslan-parser.ts:385-387 | the new state is `NextDocument`: close, reset, and list the new root as a document |
| AslanTs.ASLANParser.HandleLocked | typescript/src/aslan-parser.ts:369-374 | while locked only `[` is noticed, and it starts a candidate opening |
| AslanTs.ASLANParser.HandleGoDelimiter | typescript/src/aslan-parser.ts:376-395 | `]` completes a go token; any other character turns the token into text |
| AslanTs.ASLANParser.EndGoDelimiter | typescript/src/aslan-parser.ts:377-391 | the new state is `EndGoDelimiter`: unlock; with strict start after no stop, finish the document and start the next |
| AslanTs.ASLANParser.HandleStopDelimiter | typescript/src/aslan-parser.ts:397-419 | `]` completes a stop token; any other character turns the token into text |
| AslanTs.ASLANParser.EndStopDelimiter | typescript/src/aslan-parser.ts:398-415 | the new state is `EndStopDelimiter`: with strict end the document ends |
| AslanTs.ASLANParser.EndDocument | typescript/src/aslan-parser.ts:404-413 | the new state is `EndDocument`: lock under strict start, finish the document, start state, stopped |
| AslanTs.ASLANParser.HandleStart | typescript/src/aslan-parser.ts:421-429 | `[` starts a candidate opening; anything else is text |
| AslanTs.ASLANParser.HandleMaybeDelimiter | typescript/src/aslan-parser.ts:431-446 | the new state is `HandleMaybeDelimiter`: a character matching the opening extends the buffer; a mismatch appends only the character, keeping the buffer |
| AslanTs.ASLANParser.HandleDelimiter | typescript/src/aslan-parser.ts:448-527 | the new state is `HandleDelimiter`: the kind letter selects the token state and is recorded in the recent-items history; another alphanumeric starts a reserved token |
| AslanTs.ASLANParser.HandleReservedDelimiter | typescript/src/aslan-parser.ts:529-542 | a reserved token closed by `]` is discarded; any other character turns it into text |
| AslanTs.ASLANParser.HandleContainerDelimiter | typescript/src/aslan-parser.ts:544-594 | locked, escaped, or not followed by `]`: the token is ignored or becomes text; otherwise the container decision is applied |
| AslanTs.ASLANParser.EndContainerDelimiter | typescript/src/aslan-parser.ts:552-590 | the new state is `EndContainerDelimiter`: the decision of `ContainerActionOf` applied |
| AslanTs.ASLANParser.ContainerAction | typescript/src/aslan-parser.ts:557-587 | the decision is `ContainerActionOf` of the state, and closing only happens above the root |
| AslanTs.ASLANParser.ApplyContainerAction | typescript/src/aslan-parser.ts:563-589 | opening creates a container; re-opening clears the duplicate flag first; closing pops the frame |
| AslanTs.ASLANParser.CloseFrame | typescript/src/aslan-parser.ts:578-582 | end events, the end-data event, then the frame is popped |
| AslanTs.ASLANParser.HandleInstructionDelimiter | typescript/src/aslan-parser.ts:624-648 | `_` starts an instruction name; anything else turns the token into text |
| AslanTs.ASLANParser.HandleInstructionDelimiterName | typescript/src/aslan-parser.ts:650-727 | the new state follows the name grammar: extend, start arguments, complete, or become text |
| AslanTs.ASLANParser.EndInstructionName | typescript/src/aslan-parser.ts:673-719 | the new state is `EndInstructionName`: the instruction is registered at the field's current length and part |
| AslanTs.ASLANParser.HandleInstructionDelimiterArgs | typescript/src/aslan-parser.ts:729-785 | `]` registers the instruction with its arguments; `:` starts an argument; other characters extend the last one |
| AslanTs.ASLANParser.ExtendArgs | typescript/src/aslan-parser.ts:776-784 | `:` appends an empty argument; any other character is appended to the last argument |
| AslanTs.ASLANParser.HandleDataDelimiter | typescript/src/aslan-parser.ts:791-826 | an unnamed data token inside an array moves to the next element; `_` starts a name; otherwise the token is text |
| AslanTs.ASLANParser.NextElement | typescript/src/aslan-parser.ts:799-811 | the new state is `NextElement`: end events, the end-data event, next index |
| AslanTs.ASLANParser.StartDataArgs | typescript/src/aslan-parser.ts:833-848 | the new state is `StartDataArgs`: the field is finished and the named key selected before arguments are read |
| AslanTs.ASLANParser.EndDataName | typescript/src/aslan-parser.ts:854-869 | the new state is `EndDataName`: the field is finished, the named key selected and its policy fixed to Default at first use |
| AslanTs.ASLANParser.HandleDataDelimiterName | typescript/src/aslan-parser.ts:828-878 | the new state follows the name grammar: extend, start arguments, complete, or become text |
| AslanTs.ASLANParser.HandleDataDelimiterArgs | typescript/src/aslan-parser.ts:880-919 | `]` applies the policy argument; `:` starts an argument; other characters extend the last one |
| AslanTs.ASLANParser.EndDataArgs | typescript/src/aslan-parser.ts:885-908 | the new state is `EndDataArgs`: the policy of the first argument is set, then end and end-data events |
| AslanTs.ASLANParser.HandleVoidDelimiter | typescript/src/aslan-parser.ts:990-1010 | `]` marks the current key void; otherwise the token is text |
| AslanTs.ASLANParser.HandleCommentDelimiter | typescript/src/aslan-parser.ts:1012-1031 | `]` enters comment mode; otherwise the token is text |
| AslanTs.ASLANParser.HandleEscapeDelimiter | typescript/src/aslan-parser.ts:1033-1053 | `_` starts an escape name; anything else turns the token into text |
| AslanTs.ASLANParser.HandleEscapeDelimiterName | typescript/src/aslan-parser.ts:1055-1102 | the new state follows the name grammar (no arguments): extend, complete, or become text |
| AslanTs.ASLANParser.EndEscapeName | typescript/src/aslan-parser.ts:1065-1094 | the new state is `EndEscapeName`: open a region, close the matching one, or write a foreign name as text |
| AslanTs.ASLANParser.HandlePartDelimiter | typescript/src/aslan-parser.ts:1104-1145 | `]` adds a part and moves the key on; otherwise the token is text |
| AslanTs.ASLANParser.AddPart | typescript/src/aslan-parser.ts:1115-1135 | the new state is `AddPart`: a falsy field becomes `['']`, a string `s` becomes `[s, '']`, an array gains `''`; an object field gets its end events and no part, where the `push` throws |
| AslanTs.ASLANParser.HandleGo | typescript/src/aslan-parser.ts:1147-1154 | after go, `[` starts an opening and anything else is text |
| AslanTs.ASLANParser.HandleCollecting | typescript/src/aslan-parser.ts:1156-1167 | after stop, object or array tokens, `[` starts an opening and anything else is pending text |
| AslanTs.ASLANParser.HandleComment | typescript/src/aslan-parser.ts:1195-1204 | in a comment everything is dropped until `[` |
| AslanTs.ASLANParser.HandleEscape | typescript/src/aslan-parser.ts:1206-1220 | just after an escape token, the character is stored as text and data mode resumes |
| AslanTs.ASLANParser.EscapeChar | typescript/src/aslan-parser.ts:1211-1215 | a `[` is also pushed on the buffer, and the character is appended to the pending text |
| AslanTs.ASLANParser.HandleData | typescript/src/aslan-parser.ts:1222-1234 | `[` starts an opening; any other character is stored at once |
| AslanTs.ASLANParser.HandleNextChar | typescript/src/aslan-parser.ts:283-367 | the new state is `Step`: the handler of the current state |
| AslanTs.ASLANParser.ParseNext | typescript/src/aslan-parser.ts:266-270 | the loop leaves the state `Run` of the input |
| AslanTs.ASLANParser.Parse | typescript/src/aslan-parser.ts:255-264 | the state is `Run` then `Close`; the result is all documents in multi-document mode, else the root |
| AslanTsProps.StoreKeepsReader | typescript/src/aslan-parser.ts:1435-1464 | storing text changes neither the reading state, the buffer, the documents, the token history nor the number of frames |
| AslanTsProps.RunSnoc | typescript/src/aslan-parser.ts:256-258 | running one more character is one more step |
| AslanTsProps.StepDispatch | typescript/src/aslan-parser.ts:283-367 | in the data, candidate, kind, reserved, comment, escape and locked states a step is that state's handler |
| AslanTsProps.StepDispatchTokens | typescript/src/aslan-parser.ts:339-359 | in each token state a step is that token's handler |
| AslanTsProps.StepDispatchNames | typescript/src/aslan-parser.ts:324-355 | in each name state and in the instruction-argument state a step is that state's handler |
| AslanTsProps.TextBracket | typescript/src/aslan-parser.ts:1227-1231 | in data, `[` starts a candidate opening and nothing else changes |
| AslanTsProps.TextChar | typescript/src/aslan-parser.ts:1232-1233 | in data, any other character is appended and stored |
| AslanTsProps.PrefixExtends | typescript/src/aslan-parser.ts:437-442 | a character that matches the opening extends the buffer, and completing it enters the kind state |
| AslanTsProps.OpeningRecognised | typescript/src/aslan-parser.ts:431-446 | from clean data, the text `[` + prefix is recognised as an opening: the kind state is entered with the opening buffered, and nothing else changes |
| AslanTsProps.ReservedLetter | typescript/src/aslan-parser.ts:514-519 | unlocked, a letter or digit that names no kind after a complete opening starts a reserved token with an empty delimiter; nothing else changes |
| AslanTsProps.ReservedClose | typescript/src/aslan-parser.ts:529-542 | in a reserved token `]` drops it with the pending text, and any other character turns the buffer and itself into text |
| AslanTsProps.ReservedTokenDiscarded | typescript/src/aslan-parser.ts:514-542 | with a letter or digit that names no kind, `]` drops the token and the pending text and leaves an empty current delimiter; any other character turns the whole token into text |
| AslanTsProps.KindLetterOpens | typescript/src/aslan-parser.ts:457-526 | unlocked, a kind letter after a complete opening sets a fresh delimiter of that kind, enters its state, buffers the letter and records the kind in the history; nothing else changes |
| AslanTsProps.CommentClose | typescript/src/aslan-parser.ts:1012-1026 | outside an escape region `]` after `[Pc` enters the comment with an empty buffer and no pending text; nothing else changes |
| AslanTsProps.CommentTokenOpens | typescript/src/aslan-parser.ts:1012-1026 | from clean data outside an escape region, `[Pc]` enters a comment, drops the pending text and records the comment kind in the history; nothing else changes |
| AslanTsProps.CommentDropsText | typescript/src/aslan-parser.ts:1195-1204 | inside a comment, text without `[` leaves the whole parser state unchanged |
| AslanTsProps.StaleStep | typescript/src/aslan-parser.ts:431-446 | once the buffer is no longer a prefix of the opening it stays so after any character |
| AslanTsProps.StaleRun | typescript/src/aslan-parser.ts:431-446 | from a stale buffer no input ever reaches the kind state |
| AslanTsProps.EmptyPrefixBracket | typescript/src/aslan-parser.ts:431-446 | with the empty prefix, `[` and any character leave the reader in text with the character stored and the `[` still buffered |
| AslanTsProps.EmptyPrefixStep | typescript/src/aslan-parser.ts:431-446 | with the empty prefix, one character keeps the reader in text or holding an opening it cannot complete |
| AslanTsProps.EmptyPrefixNeverOpens | typescript/src/aslan-parser.ts:431-446 | with the empty prefix, no input read from text ever reaches the kind state |
| AslanTsProps.PlainTextKeepsBuffer | typescript/src/aslan-parser.ts:1222-1234 | text without `[` keeps data mode and leaves the buffer as it was |
| AslanTsProps.PrefixMismatch | typescript/src/aslan-parser.ts:444-445 | a mismatching character is appended as text and the buffer is kept |
| AslanTsProps.PrefixMismatchDisablesTokens | typescript/src/aslan-parser.ts:431-446 | after `[` then a non-prefix character, a later `[` leaves a stale buffer, and no later token is ever read |
| AslanTsProps.DelimiterLikeTextHidesNextToken | typescript/test/delimiter-like.spec.ts:10-22 | after `[Your name].[aslan` the decoder is not reading a token kind |
| AslanTsProps.DataNameStep | typescript/src/aslan-parser.ts:828-878 | each data-name character is refused (the token becomes text), extends the name, or ends it with `]` or `:` |
| AslanTsProps.InstructionNameStep | typescript/src/aslan-parser.ts:650-727 | each instruction-name character is refused, extends the name, or ends it |
| AslanTsProps.EscapeNameStep | typescript/src/aslan-parser.ts:1055-1102 | each escape-name character is refused, extends the name, or ends it (no arguments) |
| AslanTsProps.NameRead | typescript/src/aslan-parser.ts:876-877 | after reading a name the token holds that name and the state is unchanged |
| AslanTsProps.NameCharStep | typescript/src/aslan-parser.ts:725-726 | a name character that is not a leading `_` is appended to the name and the buffer |
| AslanTsProps.NameReadWhole | typescript/src/aslan-parser.ts:876-877 | reading a whole name body leaves the token holding it |
| AslanTsProps.DataNameToken | typescript/src/aslan-parser.ts:828-878 | `name]` completes a data token exactly for a valid name, and `name:` starts arguments exactly for a valid non-empty name; else the token becomes text |
| AslanTsProps.InstructionNameToken | typescript/src/aslan-parser.ts:650-727 | `name]` completes an instruction exactly for a valid name; else the token becomes text |
| AslanTsProps.EscapeNameToken | typescript/src/aslan-parser.ts:1055-1102 | `name]` completes an escape token exactly for a valid name; else the token becomes text |
| AslanTsProps.EscapedTokensAreText | typescript/src/aslan-parser.ts:549-551 | inside an escape region every structural token becomes text |
| AslanTsProps.EscapeRegions | typescript/src/aslan-parser.ts:1076-1092 | a name opens a region when none is active and closes the active region of the same name; a different name keeps the region, returns to data and leaves `]` as pending text |
| AslanTsProps.StoreClearsPending | typescript/src/aslan-parser.ts:1462 | storing always leaves no pending text |
| AslanTsProps.StoreAppendsText | typescript/src/aslan-parser.ts:1442-1452 | for an unlocked scalar field the stored value is the old string (or empty) followed by the pending text |
| AslanTsProps.StartStringText | typescript/src/aslan-parser.ts:1443-1445 | a string field is kept and a missing one becomes empty, with nothing else changed |
| AslanTsProps.StorePrimitiveAppends | typescript/src/aslan-parser.ts:1446-1452 | an unlocked string field gains the pending text |
| AslanTsProps.JoinedTextPrefix | typescript/src/aslan-parser.ts:1457-1459 | `join` reads the first elements of a longer array as it reads them in the shorter one |
| AslanTsProps.ArrayTextJoins | typescript/src/aslan-parser.ts:1457-1459 | an array part used as text is its elements' texts separated by `,`, with `null` and holes empty; a one-string array is that string |
| AslanTsProps.AppendToLastPartMeaning | typescript/src/aslan-parser.ts:1457-1460 | the last part becomes its text followed by the pending text; an object without its own `length` gets, at key `NaN`, that key's text (`undefined` when absent) followed by the pending text; any other field is unchanged |
| AslanTsProps.StoreImplicitSkips | typescript/src/aslan-parser.ts:1453-1456 | a field that is not an implicit array is left alone |
| AslanTsProps.LockedFieldKeepsValue | typescript/src/aslan-parser.ts:1442-1463 | a locked KeepFirst field keeps its value: with pending text a truthy field is untouched and a falsy one becomes the empty string; the pending text is dropped |
| AslanTsProps.VoidFieldIsNull | typescript/src/aslan-parser.ts:1436-1440 | a void field is set to null whatever the pending text, and the pending text is dropped |
| AslanTsProps.VoidTokenMarks | typescript/src/aslan-parser.ts:998-1005 | a void token marks the current key void and changes no container |
| AslanTsProps.InsertionPolicy | typescript/src/aslan-parser.ts:1466-1490 | a policy is fixed only at first use; a later KeepFirst use locks the key; a later KeepLast use clears the field and drops its instructions; otherwise the frames are unchanged |
| AslanTsProps.ContainerActionMeaning | typescript/src/aslan-parser.ts:556-589 | open exactly when the previous material token is data and the field holds no content or is `typeof` object; otherwise re-open exactly for a repeated key, and close exactly when neither holds above the root |
| AslanTsProps.CreateNewShape | typescript/src/aslan-parser.ts:607-622 | a new frame with an empty container and default key is pushed, and the container is stored at the parent's key |
| AslanTsProps.AfterContainerToken | typescript/src/aslan-parser.ts:555-556 | the container token changes neither the frames nor the history before it is decided |
| AslanTsProps.ContainerTokenApplies | typescript/src/aslan-parser.ts:552-590 | an `o`/`a` token closed by `]` applies `ContainerActionOf` |
| AslanTsProps.ContainerTokenOpens | typescript/src/aslan-parser.ts:559-588 | when the token opens, one frame is pushed with an empty container stored at the key, and a re-open clears the duplicate flag |
| AslanTsProps.ContainerTokenCloses | typescript/src/aslan-parser.ts:578-582 | when it does not open, the top frame is popped above the root and nothing happens at the root |
| AslanTsProps.NextKeyRules | typescript/src/aslan-parser.ts:1492-1529 | in an array the key becomes the `parseInt` index or the minimum, and the minimum rises above it; in an object a name becomes the key and a present key is flagged as seen |
| AslanTsProps.NextKeyNullsDefault | typescript/src/aslan-parser.ts:1513-1519 | a named key turns an empty default field into null |
| AslanTsProps.AddPartShapes | typescript/src/aslan-parser.ts:1115-1135 | a locked key is untouched; otherwise a falsy field becomes `['']`, a string `s` becomes `[s, '']`, an array gains `''` |
| AslanTsProps.CloseKeepsDocuments | typescript/src/aslan-parser.ts:1546-1550 | closing keeps the reading state, the finished documents and the insertion policies |
| AslanTsProps.NextDocumentResults | typescript/src/aslan-parser.ts:385-387 | starting the next document appends the fresh root to the documents, and the document index is the last position |
| AslanTsProps.GoToken | typescript/src/aslan-parser.ts:377-391 | a go token unlocks; with strict start after no stop it finishes the document and starts the next; otherwise the tree and documents are untouched |
| AslanTsProps.StopToken | typescript/src/aslan-parser.ts:398-415 | with strict end a stop token returns to the start state, locks exactly under strict start (or if already locked) and leaves one frame; without it only the state and buffers change |
| AslanTsProps.LockedIgnoresText | typescript/src/aslan-parser.ts:369-374 | while locked every character but `[` is ignored |
| AslanTsProps.LockedSkipsTokens | typescript/src/aslan-parser.ts:449-456 | a locked decoder without strict start reads only go tokens |
| AslanTsProps.OnPart | typescript/src/aslan-parser.ts:1291-1300 | the instructions of a part are those with that part index, and there are some exactly when one has it |
| AslanTsProps.GroupByPartFilters | typescript/src/aslan-parser.ts:1291-1300 | a part index has a group exactly when some instruction has it, and the group is those instructions in order |
| AslanTsProps.EndDataParts | typescript/src/aslan-parser.ts:1301-1313 | the end-data event of an implicit array has one part per element, with its value, its index and that index's instructions |
| AslanTsProps.InstructionRegistered | typescript/src/aslan-parser.ts:693-706 | an instruction is appended with its key, name, position and arguments unless its key is a repeated KeepFirst key |
| AslanTsProps.InstructionPosition | typescript/src/aslan-parser.ts:681-691 | the lookup throws exactly when the field is an array that is empty or ends in `null` or a hole; on a string the instruction sits at its length in part 0; on another array at the last element's length in the last part; on anything else at 0 in part 0 |
| AslanTsProps.InstructionTypeErrorKeepsState | typescript/src/aslan-parser.ts:736-745 | when that lookup throws, the closing `]` of an instruction name or argument list registers nothing and leaves the parser unchanged |
| AslanRsSpec.Nulls | rust/src/aslan_parser.rs:1524-1530 | the padding of an array write is n nulls |
| AslanRsSpec.Put | rust/src/aslan_parser.rs:1519-1531 | a write keeps the container's kind, and a write at a key that is not a usize leaves it unchanged |
| AslanRsSpec.SyncFrom | rust/src/aslan_parser.rs:1557-1575 | copying frames back from position i keeps the number of frames |
| AslanRsSpec.Synced | rust/src/aslan_parser.rs:1555-1582 | the synchronised stack has as many frames as before |
| AslanRsSpec.EmitPrimitive | rust/src/aslan_parser.rs:1747-1791 | content events of a field only append events; nothing else changes |
| AslanRsSpec.EmitImplicit | rust/src/aslan_parser.rs:1797-1843 | content events of an implicit array's last part only append events |
| AslanRsSpec.EmitEnd | rust/src/aslan_parser.rs:1672-1685 | end events only append events |
| AslanRsSpec.EmitEndData | rust/src/aslan_parser.rs:1687-1741 | the end-data event only appends events |
| AslanRsSpec.ContentEvents | rust/src/aslan_parser.rs:1761-1790 | at most one event per registered instruction, each a content event for this tag, key, part, value, path and document index |
| AslanRsSpec.KeyInfos | rust/src/aslan_parser.rs:1697-1705 | the instruction records of a key are no more than the registered instructions |
| AslanRsSpec.Parts | rust/src/aslan_parser.rs:1731-1737 | one content part per element, carrying its text (empty when not a string), its index and its grouped instructions (or none) |
| AslanRsSpec.EndDataEventOf | rust/src/aslan_parser.rs:1687-1741 | an end-data event is built exactly when the field is not a container or is an implicit array, and it names the current key |
| AslanRsSpec.WithoutKey | rust/src/aslan_parser.rs:1598 | the kept instructions are exactly those of other keys |
| AslanRsSpec.ObjectSafeLatest | rust/src/aslan_parser.rs:759-771 | a missing or null field is not content; a container is; a string is content when non-empty, or non-blank when whitespace collapses |
| AslanRsSpec.ContainerActionOf | rust/src/aslan_parser.rs:727-750 | a close is only chosen when a frame other than the root is open |
| AslanRsSpec.RunAppend | rust/src/aslan_parser.rs:322-326 | feeding `a + b` is feeding `a` and then `b` |
| AslanRs.WriteAt | rust/src/aslan_parser.rs:1522-1531 | the write, including the null-padding loop, is `Put` |
| AslanRs.ContentEventsFor | rust/src/aslan_parser.rs:1761-1790 | the loop emits `ContentEvents`: one event per instruction of this key and part |
| AslanRs.GroupByPartIndex | rust/src/aslan_parser.rs:1716-1729 | the loop builds `GroupByPart`: the key's instructions grouped by part index |
| AslanRs.ASLANParser.constructor | rust/src/aslan_parser.rs:254-305 | the fields are the initial state: one root frame with the default field, locked under strict start, and the root listed as the first document |
| AslanRs.ASLANParser.GetResults | rust/src/aslan_parser.rs:342-344 | the list of documents |
| AslanRs.ASLANParser.Get2ndMostRecentMaterialDelimiter | rust/src/aslan_parser.rs:492-497 | the second most recent token kind that is not a comment or an escape |
| AslanRs.ASLANParser.GetCurrentPath | rust/src/aslan_parser.rs:1656-1670 | the loop collects the key of every frame, skipping the default field name and writing indices as text |
| AslanRs.ASLANParser.SyncStackToRoot | rust/src/aslan_parser.rs:1555-1582 | the loop copies every frame's container into its parent from the top down, then sets the last document to the root |
| AslanRs.ASLANParser.SetValueAtKey | rust/src/aslan_parser.rs:1519-1535 | the new state is the write at the current key, then synchronised to the root |
| AslanRs.ASLANParser.AppendToArrayAtKey | rust/src/aslan_parser.rs:1537-1553 | the new state is the push onto the array at the current key, then synchronised |
| AslanRs.ASLANParser.ExitDelimiterIntoData | rust/src/aslan_parser.rs:499-505 | the buffered token text and the character become text and data mode resumes |
| AslanRs.ASLANParser.EmitContentEventsForPrimitiveWithTag | rust/src/aslan_parser.rs:1747-1791 | the new state is `EmitPrimitive`: the events of part 0, if that event kind is emitted |
| AslanRs.ASLANParser.EmitContentEventsForImplicitArrayWithTag | rust/src/aslan_parser.rs:1797-1843 | the new state is `EmitImplicit`: the events of the last part |
| AslanRs.ASLANParser.EmitEndEventsIfRequired | rust/src/aslan_parser.rs:1672-1685 | the new state is `EmitEnd` |
| AslanRs.ASLANParser.EmitEndDataEventsIfRequired | rust/src/aslan_parser.rs:1687-1741 | the new state is `EmitEndData` |
| AslanRs.ASLANParser.EndDataEvent | rust/src/aslan_parser.rs:1845-1866 | the event handed to end-data listeners is `EndDataEventOf` of the state |
| AslanRs.ASLANParser.StoreCurrentValue | rust/src/aslan_parser.rs:1479-1517 | the new state is `StoreCurrentValue`: a void field becomes null; otherwise pending text goes to the field or its last part unless the key is locked |
| AslanRs.ASLANParser.StorePrimitive | rust/src/aslan_parser.rs:1493-1498 | the pending text is appended to a non-container field (a non-string reads as empty) and content events follow |
| AslanRs.ASLANParser.StoreImplicit | rust/src/aslan_parser.rs:1500-1514 | the pending text goes to the last part of an implicit array and content events follow |
| AslanRs.ASLANParser.AppendToLastPart | rust/src/aslan_parser.rs:1502-1512 | the last element is replaced by its text followed by the pending text |
| AslanRs.ASLANParser.SetDataInsertionType | rust/src/aslan_parser.rs:1584-1608 | the new state is `SetDataInsertionType`: policy fixed at first use; KeepLast clears an object field and its instructions, KeepFirst locks it |
| AslanRs.ASLANParser.NextKey | rust/src/aslan_parser.rs:1610-1654 | the new state is `NextKey`: the next array index, or the named key with the duplicate flag |
| AslanRs.ASLANParser.CreateNew | rust/src/aslan_parser.rs:784-815 | the new state is `CreateNew`: an empty container written at the key and a fresh frame holding it |
| AslanRs.ASLANParser.RegisterInstructionIfAllowed | rust/src/aslan_parser.rs:877-903 | the new state is `CompleteInstruction`: register and emit, unless the key is a repeated KeepFirst key |
| AslanRs.ASLANParser.Close | rust/src/aslan_parser.rs:329-334 | the new state is `Close`: end events, end-data event, store, synchronise |
| AslanRs.ASLANParser.Reset | rust/src/aslan_parser.rs:347-370 | the new state is `Reset`: the stack is exactly one fresh root frame |
| AslanRs.ASLANParser.NextDocument | rust/src/aslan_parser.rs:555-557 | the new state is `NextDocument`: close, reset, and append the new root to the documents |
| AslanRs.ASLANParser.HandleLocked | rust/src/aslan_parser.rs:539-544 | while locked only `[` is noticed |
| AslanRs.ASLANParser.HandleGoDelimiter | rust/src/aslan_parser.rs:546-565 | `]` completes a go token; anything else turns it into text |
| AslanRs.ASLANParser.EndGoDelimiter | rust/src/aslan_parser.rs:547-561 | the new state is `EndGoDelimiter`: unlock, and under strict start after no stop start the next document |
| AslanRs.ASLANParser.HandleStopDelimiter | rust/src/aslan_parser.rs:567-589 | `]` completes a stop token; anything else turns it into text |
| AslanRs.ASLANParser.EndStopDelimiter | rust/src/aslan_parser.rs:568-585 | the new state is `EndStopDelimiter` |
| AslanRs.ASLANParser.EndDocument | rust/src/aslan_parser.rs:574-583 | the new state is `EndDocument`: lock under strict start, finish the document, start state |
| AslanRs.ASLANParser.HandleStart | rust/src/aslan_parser.rs:591-599 | `[` starts a candidate opening; anything else is text |
| AslanRs.ASLANParser.HandleMaybeDelimiter | rust/src/aslan_parser.rs:601-616 | the new state is `HandleMaybeDelimiter`: a matching character extends the buffer; a mismatch flushes the buffer and the character into text |
| AslanRs.ASLANParser.HandleDelimiter | rust/src/aslan_parser.rs:618-697 | the new state is `HandleDelimiter`: the kind letter selects the token state and is recorded in the history |
| AslanRs.ASLANParser.HandleReservedDelimiter | rust/src/aslan_parser.rs:699-712 | a reserved token closed by `]` is discarded; otherwise it becomes text |
| AslanRs.ASLANParser.GetObjectSafeLatestResult | rust/src/aslan_parser.rs:759-771 | whether the field holds content, as `ObjectSafeLatest` |
| AslanRs.ASLANParser.HandleContainerDelimiter | rust/src/aslan_parser.rs:714-757 | locked, escaped, or not followed by `]`: ignored or text; otherwise the container decision is applied |
| AslanRs.ASLANParser.EndContainerDelimiter | rust/src/aslan_parser.rs:722-753 | the new state is `EndContainerDelimiter` |
| AslanRs.ASLANParser.ContainerAction | rust/src/aslan_parser.rs:727-750 | the decision is `ContainerActionOf`, and closing only happens above the root |
| AslanRs.ASLANParser.ApplyContainerAction | rust/src/aslan_parser.rs:733-752 | opening creates a container; re-opening clears the duplicate flag first; closing pops |
| AslanRs.ASLANParser.CloseFrame | rust/src/aslan_parser.rs:740-745 | end events, end-data event, synchronise, then the frame is popped |
| AslanRs.ASLANParser.HandleInstructionDelimiter | rust/src/aslan_parser.rs:817-841 | `_` starts an instruction name; anything else turns the token into text |
| AslanRs.ASLANParser.HandleInstructionDelimiterName | rust/src/aslan_parser.rs:843-915 | the new state follows the name grammar |
| AslanRs.ASLANParser.EndInstructionName | rust/src/aslan_parser.rs:869-907 | the new state is `EndInstructionName`: registered at the field's position |
| AslanRs.ASLANParser.HandleInstructionDelimiterArgs | rust/src/aslan_parser.rs:917-968 | `]` registers the instruction; `:` starts an argument; other characters extend the last |
| AslanRs.ASLANParser.ExtendArgs | rust/src/aslan_parser.rs:956-967 | `:` appends an empty argument; any other character extends the last argument |
| AslanRs.ASLANParser.HandleDataDelimiter | rust/src/aslan_parser.rs:989-1024 | an unnamed data token in an array moves to the next element; `_` starts a name; otherwise text |
| AslanRs.ASLANParser.NextElement | rust/src/aslan_parser.rs:997-1009 | the new state is `NextElement` |
| AslanRs.ASLANParser.StartDataArgs | rust/src/aslan_parser.rs:1034-1049 | the new state is `StartDataArgs` |
| AslanRs.ASLANParser.AppendSeparator | rust/src/aslan_parser.rs:1070-1079 | the new state is `AppendSeparator`: a repeated scalar key gets the separator appended |
| AslanRs.ASLANParser.EndDataName | rust/src/aslan_parser.rs:1055-1081 | the new state is `EndDataName` |
| AslanRs.ASLANParser.HandleDataDelimiterName | rust/src/aslan_parser.rs:1026-1089 | the new state follows the name grammar |
| AslanRs.ASLANParser.HandleDataDelimiterArgs | rust/src/aslan_parser.rs:1091-1141 | `]` applies the policy argument; `:` starts an argument; others extend the last |
| AslanRs.ASLANParser.EndDataArgs | rust/src/aslan_parser.rs:1096-1128 | the new state is `EndDataArgs`: policy, events, then the separator for a repeated Append/Default key |
| AslanRs.ASLANParser.HandleVoidDelimiter | rust/src/aslan_parser.rs:1221-1242 | `]` marks the key void; otherwise text |
| AslanRs.ASLANParser.HandleCommentDelimiter | rust/src/aslan_parser.rs:1244-1263 | `]` enters comment mode; otherwise text |
| AslanRs.ASLANParser.HandleEscapeDelimiter | rust/src/aslan_parser.rs:1265-1285 | `_` starts an escape name; otherwise text |
| AslanRs.ASLANParser.HandleEscapeDelimiterName | rust/src/aslan_parser.rs:1287-1338 | the new state follows the name grammar (no arguments) |
| AslanRs.ASLANParser.EndEscapeName | rust/src/aslan_parser.rs:1300-1330 | the new state is `EndEscapeName` |
| AslanRs.ASLANParser.HandlePartDelimiter | rust/src/aslan_parser.rs:1340-1384 | `]` adds a part and moves the key on; otherwise text |
| AslanRs.ASLANParser.AddPart | rust/src/aslan_parser.rs:1351-1374 | the new state is `AddPart` |
| AslanRs.ASLANParser.HandleGo | rust/src/aslan_parser.rs:1386-1393 | after go, `[` starts an opening and anything else is text |
| AslanRs.ASLANParser.HandleCollecting | rust/src/aslan_parser.rs:1395-1406 | after stop, object or array tokens, `[` starts an opening and anything else is pending text |
| AslanRs.ASLANParser.HandleComment | rust/src/aslan_parser.rs:1434-1443 | in a comment everything is dropped until `[` |
| AslanRs.ASLANParser.HandleEscape | rust/src/aslan_parser.rs:1445-1459 | just after an escape token the character is stored as text and data mode resumes |
| AslanRs.ASLANParser.EscapeChar | rust/src/aslan_parser.rs:1450-1454 | a `[` is also pushed on the buffer, and the character is appended to the pending text |
| AslanRs.ASLANParser.HandleData | rust/src/aslan_parser.rs:1461-1473 | `[` starts an opening; any other character is stored at once |
| AslanRs.ASLANParser.HandleNextChar | rust/src/aslan_parser.rs:507-537 | the new state is `Step` |
| AslanRs.ASLANParser.ParseNext | rust/src/aslan_parser.rs:322-326 | the loop leaves the state `Run` of the input |
| AslanRs.ASLANParser.Parse | rust/src/aslan_parser.rs:308-319 | the state is `Run` then `Close`; the result is all documents in multi-document mode, else the root |
| AslanRsProps.ArraySlotReadsKeyText | rust/src/aslan_parser.rs:1525 | the array slot of a key is `parse::<usize>` of its text |
| AslanRsProps.PutGet | rust/src/aslan_parser.rs:1522-1531 | reading back a written key gives the written value |
| AslanRsProps.PutElsewhere | rust/src/aslan_parser.rs:1522-1531 | other fields of an object are unchanged; an array write grows the array to max(length, slot+1), keeps other elements and pads with nulls |
| AslanRsProps.PutIdempotent | rust/src/aslan_parser.rs:1519-1531 | writing the same value twice is writing it once |
| AslanRsProps.SyncFromShape | rust/src/aslan_parser.rs:1557-1575 | after copying back from position i, frames from i on are unchanged and each lower frame holds the copied child |
| AslanRsProps.SyncedAssembles | rust/src/aslan_parser.rs:1555-1582 | after synchronising, every frame's container is the document assembled from that frame up, and only containers change |
| AslanRsProps.SyncedIdempotent | rust/src/aslan_parser.rs:1555-1582 | synchronising twice is synchronising once |
| AslanRsProps.SyncStackToRootMeaning | rust/src/aslan_parser.rs:1555-1582 | the top frame is unchanged, the root holds the assembled document, the last document is replaced by it, and the operation is idempotent |
| AslanRsProps.SetValueAtKeyMeaning | rust/src/aslan_parser.rs:1519-1535 | the top container gets the write at the current key, and reading it back gives the value |
| AslanRsProps.StoreKeepsReader | rust/src/aslan_parser.rs:1479-1517 | storing changes neither the reading state nor flags, and clears the pending text |
| AslanRsProps.StoreAppendsText | rust/src/aslan_parser.rs:1493-1498 | for an unlocked scalar field the stored value is the old text (non-strings read as empty) followed by the pending text |
| AslanRsProps.LockedFieldKeepsValue | rust/src/aslan_parser.rs:1488-1516 | a locked field keeps its value and only the pending text is dropped |
| AslanRsProps.VoidFieldIsNull | rust/src/aslan_parser.rs:1482-1486 | a void field becomes null |
| AslanRsProps.SeparatorAppended | rust/src/aslan_parser.rs:1070-1079 | a repeated scalar key gets the separator appended, and the pending text is cleared |
| AslanRsProps.NoSeparatorOtherwise | rust/src/aslan_parser.rs:1112-1126 | otherwise only the pending text is cleared |
| AslanRsProps.RunSnoc | rust/src/aslan_parser.rs:309-311 | running one more character is one more step |
| AslanRsProps.StepDispatch | rust/src/aslan_parser.rs:507-537 | in the data, candidate, kind, comment and locked states a step is that state's handler |
| AslanRsProps.StepDispatchTokens | rust/src/aslan_parser.rs:507-537 | in each token state a step is that token's handler |
| AslanRsProps.StepDispatchNames | rust/src/aslan_parser.rs:507-537 | in each name, argument, escape, go and stop state a step is that state's handler |
| AslanRsProps.TextBracket | rust/src/aslan_parser.rs:1466-1470 | in data, `[` starts a candidate opening and nothing else changes |
| AslanRsProps.TextChar | rust/src/aslan_parser.rs:1471-1472 | in data, any other character is appended and stored |
| AslanRsProps.PlainTextKeepsBuffer | rust/src/aslan_parser.rs:1461-1473 | text without `[` keeps data mode and the buffer |
| AslanRsProps.PrefixExtends | rust/src/aslan_parser.rs:607-614 | a matching character extends the buffer, and completing it enters the kind state |
| AslanRsProps.PrefixMismatchFlushes | rust/src/aslan_parser.rs:615 | a mismatch puts the buffer and the character into the text and clears the buffer |
| AslanRsProps.OpeningRecognised | rust/src/aslan_parser.rs:601-616 | from clean data, `[` + prefix is recognised as an opening: the kind state is entered with the opening buffered, and nothing else changes |
| AslanRsProps.ReservedLetter | rust/src/aslan_parser.rs:681-686 | unlocked, a letter or digit that names no kind after a complete opening starts a reserved token with an empty delimiter; nothing else changes |
| AslanRsProps.ReservedClose | rust/src/aslan_parser.rs:699-712 | in a reserved token `]` drops it with the pending text, and any other character turns the buffer and itself into text |
| AslanRsProps.ReservedTokenDiscarded | rust/src/aslan_parser.rs:681-712 | with a letter or digit that names no kind, `]` drops the token and the pending text and leaves an empty current delimiter; any other character turns the whole token into text |
| AslanRsProps.KindLetterOpens | rust/src/aslan_parser.rs:618-697 | unlocked, a kind letter after a complete opening sets a fresh delimiter of that kind, enters its state, buffers the letter and records the kind in the history; nothing else changes |
| AslanRsProps.CommentClose | rust/src/aslan_parser.rs:1244-1255 | outside an escape region `]` after `[Pc` enters the comment with an empty buffer and no pending text; nothing else changes |
| AslanRsProps.CommentTokenOpens | rust/src/aslan_parser.rs:1244-1255 | from clean data outside an escape region, `[Pc]` enters a comment, drops the pending text and records the comment kind in the history; nothing else changes |
| AslanRsProps.CommentDropsText | rust/src/aslan_parser.rs:1434-1443 | inside a comment, text without `[` leaves the whole parser state unchanged |
| AslanRsProps.PrefixMismatchKeepsTokens | rust/src/aslan_parser.rs:601-616 | after `[` then a non-prefix character the text keeps both characters, and a later opening is still recognised |
| AslanRsProps.EmptyPrefixBracket | rust/src/aslan_parser.rs:601-616 | with the empty prefix, `[` and any character are flushed into the text and the reader is back in text with nothing buffered |
| AslanRsProps.EmptyPrefixStep | rust/src/aslan_parser.rs:601-616 | with the empty prefix, one character keeps the reader in clean text or holding `[` alone |
| AslanRsProps.EmptyPrefixNeverOpens | rust/src/aslan_parser.rs:601-616 | with the empty prefix, no input read from clean text ever reaches the kind state |
| AslanRsProps.DelimiterLikeTextKeepsNextToken | rust/tests/delimiter_like_test.rs:4-16 | `[Y` stays in the text, and after `[Your name].[aslan` the decoder reads a token kind |
| AslanRsProps.LockedIgnoresText | rust/src/aslan_parser.rs:539-544 | while locked every character but `[` is ignored |
| AslanRsProps.KindLetter | rust/src/aslan_parser.rs:618-697 | locked without strict start only go is read; a kind letter selects its state and is recorded first in the history; another character records nothing |
| AslanRsProps.EscapedTokensAreText | rust/src/aslan_parser.rs:719-721 | inside an escape region every structural token becomes text |
| AslanRsProps.EscapeRegions | rust/src/aslan_parser.rs:1312-1328 | a name opens a region when none is active, closes the same-named region, and a different name is written as text |
| AslanRsProps.EmptyEscapeNameOpensRegion | rust/src/aslan_parser.rs:1312-1313 | an empty escape name opens a region in Rust, while TypeScript would treat it as no region |
| AslanRsProps.ContainerTokenApplies | rust/src/aslan_parser.rs:722-753 | an `o`/`a` token closed by `]` applies `ContainerActionOf` |
| AslanRsProps.CreateNewShape | rust/src/aslan_parser.rs:784-815 | a new frame with an empty container and default key is pushed, and the parent holds the container at its key |
| AslanRsProps.ContainerTokenOpens | rust/src/aslan_parser.rs:729-752 | when the token opens, one frame is pushed with the empty container written at the key, and a re-open clears the duplicate flag |
| AslanRsProps.ContainerTokenCloses | rust/src/aslan_parser.rs:740-745 | when it does not open, the frame is closed above the root (one frame fewer) and nothing happens at the root |
| AslanRsProps.CloseFrameKeepsContainer | rust/src/aslan_parser.rs:740-745 | after the pop, the parent holds the closed container at its key |
| AslanRsProps.NextKeyRules | rust/src/aslan_parser.rs:1610-1654 | in an array the key becomes the `parse::<i64>` index or the minimum, and the minimum rises above it; in an object a name becomes the key and a present key is flagged |
| AslanRsProps.EmptyDataNameSelectsEmptyKey | rust/src/aslan_parser.rs:1055-1068 | in an object `[aslan d_]` selects the empty key |
| AslanRsProps.InsertionPolicy | rust/src/aslan_parser.rs:1584-1608 | a policy is fixed only at first use; KeepFirst locks; KeepLast clears an object field and drops its instructions; otherwise the container is unchanged |
| AslanRsProps.AddPartShapes | rust/src/aslan_parser.rs:1351-1374 | a locked key is untouched; a falsy field becomes `[""]`, a string `s` becomes `[s, ""]`, an array gains `""` |
| AslanRsProps.InstructionRegistered | rust/src/aslan_parser.rs:884-903 | the instruction is appended with key, name, position and arguments unless its key is a repeated KeepFirst key, in which case nothing changes |
| AslanRsProps.InstructionPosition | rust/src/aslan_parser.rs:970-983 | on a string the instruction sits at its length in part 0; on an array at the last string's length in the last part; on an empty array at part 0, where the TypeScript lookup throws |
| AslanRsProps.GroupByPartFilters | rust/src/aslan_parser.rs:1716-1729 | a part's group is exactly the key's instructions of that part, and a group is never empty |
| AslanRsProps.KeyInfosFilters | rust/src/aslan_parser.rs:1697-1705 | a record is in the key's list exactly when some instruction of that key produced it |
| AslanRsProps.EndDataParts | rust/src/aslan_parser.rs:1714-1739 | the end-data event of an implicit array has one part per element, with its text, its index and that part's instructions |
| AslanRsProps.CloseKeepsDocuments | rust/src/aslan_parser.rs:329-334 | closing keeps the reading state and earlier documents, and the last document is the root |
| AslanRsProps.NextDocumentResults | rust/src/aslan_parser.rs:555-557 | starting the next document appends the fresh root and leaves one root frame; the document index is the new last position |
| AslanRsProps.GoToken | rust/src/aslan_parser.rs:547-561 | a go token unlocks; under strict start after no stop it finishes the document and starts the next; otherwise tree and documents are untouched |
| AslanRsProps.StopToken | rust/src/aslan_parser.rs:568-585 | with strict end a stop token returns to the start state, locks exactly under strict start (or if already locked) and leaves one fresh root frame; without it only the state and buffers change |
| Json2Aslan.CharMembers | json2aslan/src/convert.ts:46-57 | `Object.keys` of a string gives one member per character, keyed by its decimal index |
| Json2Aslan.ElementsFrom | json2aslan/src/convert.ts:32-43 | the encoding of the elements from i is element i then the rest |
| Json2Aslan.Push | json2aslan/src/convert.ts:8-13 | pushing a frame puts its remaining output before the rest of the stack's |
| Json2Aslan.PushTwo | json2aslan/src/convert.ts:32-57 | pushing the parent and then the child puts the child's output first |
| Json2Aslan.DescendPending | json2aslan/src/convert.ts:32-57 | descending into a value puts the value's inner output before the parent's remainder, and shrinks the work |
| Json2Aslan.BodySplit | json2aslan/src/convert.ts:32-57 | a value's encoding is its immediate text then its inner encoding, which is smaller |
| Json2Aslan.MemberStep | json2aslan/src/convert.ts:46-57 | visiting one object member emits its key token and immediate text, and the stack then owes exactly the rest |
| Json2Aslan.ElementSplit | json2aslan/src/convert.ts:32-43 | an element's encoding is its lead text then its inner encoding |
| Json2Aslan.ElementStep | json2aslan/src/convert.ts:32-43 | visiting element i emits its lead text, and the stack then owes exactly the rest |
| Json2Aslan.PopExhausted | json2aslan/src/convert.ts:20-30 | popping an exhausted frame changes neither the owed output nor the work |
| Json2Aslan.InitialPending | json2aslan/src/convert.ts:8-13 | the initial stack owes exactly the expected encoding of the root |
| Json2Aslan.Visit | json2aslan/src/convert.ts:17-59 | one loop iteration emits a piece so that piece + what the new stack owes = what the old stack owed, and the work decreases |
| Json2Aslan.Convert | json2aslan/src/convert.ts:1-61 | the result is `Expected`: `Object.keys(null)` fails, and other values give their recursive encoding |
| Json2Aslan.Walk | json2aslan/src/convert.ts:17-59 | the loop's output is exactly what the stack owes |
| Json2Aslan.MembersCons | json2aslan/src/convert.ts:46-57 | an object's encoding is the first member's key token and value, then the rest |
| Json2Aslan.FlatExample | json2aslan/test/convert.spec.ts:4-7 | `{name: "John", age: 30}` encodes as `[Pd_name]John[Pd_age]30` |
| Json2Aslan.NestedExample | json2aslan/test/convert.spec.ts:9-12 | a nested address object encodes with `[Pd_address][Po]` before its fields |
| Json2AslanFixed.FixedAgreesWhenNothingCloses | json2aslan/test/convert.spec.ts:4-12 | the corrected encoding equals the converter's one for values with no arrays where only the last member may be a container |
| Json2AslanFixed.FixedMembersAgree | json2aslan/test/convert.spec.ts:4-12 | the same for a member list |
| Json2AslanFixed.FixedExpectedAgrees | json2aslan/test/convert.spec.ts:4-12 | the corrected conversion agrees with the converter on such objects, so the flat and nested tests keep their expected text |
| Json2AslanFixed.FixedElementsStartWithData | json2aslan/test/convert.spec.ts:14-17 | every array element is introduced by `[Pd]` |
| Json2AslanFixed.ClosedContainerEnds | json2aslan/test/convert.spec.ts:14-17 | a container that something follows ends with its own kind token |
| Json2AslanFixed.ArrayOfObjects | json2aslan/src/convert.ts:32-43 | as written, an object in an array follows `[Pa]` directly; corrected, `[Pd]` sits between them |
| Json2AslanFixed.PersonText | json2aslan/test/convert.spec.ts:14-17 | a person object encodes as `[Po][Pd_name]…[Pd_age]…`, with a closing `[Po]` when closed |
| Json2AslanFixed.TwoPeopleElements | json2aslan/test/convert.spec.ts:14-17 | two person elements encode with `[Pd]` before each and `[Po]` closing the first |
| Json2AslanFixed.PeopleMember | json2aslan/test/convert.spec.ts:14-17 | a `people` array of two persons encodes as `[Pd_people][Pa]` followed by the two elements |
| Json2AslanFixed.PeopleExample | json2aslan/test/convert.spec.ts:14-17 | the array test's input gives the text that test expects |
| Json2AslanFixed.TopLevelPeople | json2aslan/test/convert.spec.ts:19-22 | a top-level array starts with `[Pa]` and then the elements |
| Json2AslanFixed.TopLevelArrayExample | json2aslan/test/convert.spec.ts:19-22 | the top-level array test's input gives the text that test expects |

## Left out

- Event listeners are left out: `addEventListener`, `removeEventListener` and the Rust listener registry with its idempotency keys. Events are appended to an `events` list in the state. Each event's `structure` snapshot and the TypeScript `deepCopy` are not modelled, because they only copy the tree to callers.
- `JSON.parse` in the converter and its `Invalid JSON` error are left out. The converter starts from a parsed JSON value. `AslanCommon` leaves out `maxObjectDepth`, which the decoder never reads.
- String lengths are lengths of `seq<char>`. The model does not count Rust's UTF-8 bytes (`len()` in `get_instruction_indices`) or JavaScript's UTF-16 units. Trimming and `is_ascii_alphanumeric` are stated for ASCII only.
- `Decimal.ParseIntLenient` reads only the names the name grammar admits. Those never hold signs or whitespace, so `parseInt`'s sign and whitespace handling is not modelled.
- JavaScript number precision is not modelled. An index above 2^53 is kept exactly in the model.
- `AslanTsSpec.NextKey`: the TypeScript minimum index `n + 1` is unbounded. `AslanRsSpec.NextKey` does not model the i64 overflow of `new_index + 1`, which panics in debug builds and wraps in release builds.
- `AslanRs.ASLANParser.constructor` models `with_settings`. `ASLANParser::new` and `Default` are `with_settings` of the default settings, so they are not separate members.
- TypeScript `TypeError`s reachable from input, other than the instruction position below, are modelled by skipping the operation that throws. The model keeps what was done before it and goes on with the rest of the handler and the input. In TypeScript the exception ends the `parse` or `parseNext` call. The cases are:
  - `AslanTsSpec.AddPart` on an object field: `{}.push('')` (typescript/src/aslan-parser.ts:1133), input `[asland_x][aslano][aslano][aslanp]`. The model emits the end events, adds no part, and reads on.
  - `AslanTsSpec.AppendToLastPart` on an implicit key that holds a string: an assignment into a string index (typescript/src/aslan-parser.ts:1457-1459), which throws in class code. Input `[asland_x:l][aslanp][asland_x:l]t`. The model keeps `x = "t"` from the primitive branch and writes no part.
  - `AslanTsSpec.EmitImplicit` on an implicit key that holds `null`: `null.length` (typescript/src/aslan-parser.ts:1358). Input `[asland_x][aslanp][aslani_n][aslanv]a` with end events on, at the end of input. The model emits nothing for that field.
- `AslanTs.ASLANParser.StoreCurrentValue`: the TypeScript per-key tables are `{}` literals (typescript/src/aslan-parser.ts:607-622). These are `voidFields`, `implicitArrays`, `alreadySeenDuplicateKeys`, `dataInsertionLocks` and `dataInsertionTypes`. A name that `Object.prototype` defines, such as `constructor`, `toString`, `valueOf`, `hasOwnProperty`, `isPrototypeOf`, `propertyIsEnumerable` or `toLocaleString`, is found in each of them from the start. The model's tables are sets and maps without a prototype chain, so for these key names it differs from TypeScript. For example, `[asland_constructor]hi` stores `"hi"` where TypeScript stores `null`, because the name counts as void. Modelling the chain would need function values for inherited properties, and the JSON-shaped `Value` has none.
- `AslanTs.ASLANParser.SetDataInsertionType`: for an `Object.prototype` name, TypeScript finds a policy already set (line 1469), while the model records one.
- `AslanTs.ASLANParser.NextKey`: `key in latest` (line 1522) is true in TypeScript for an `Object.prototype` name in an object, and the model does not flag the name as already seen.
- `AslanTs.ASLANParser.AddPart`: an `Object.prototype` name counts as locked in TypeScript (line 1115), so `[asland_toString][aslanp]` adds no part. The model makes an implicit array.
- `AslanTsSpec.AppendToLastPart`: when an implicit key holds an object that has its own `length` field, `obj.length - 1` depends on that field's value. The model writes nothing in that case.
- `AslanTsSpec.InstructionIndices`: a `TypeError` reachable from input, `undefined.length` or `null.length` on an empty array or one that ends in `null` or a hole, is modelled as the throw leaves the parser. Nothing is registered and the state is unchanged (`AslanTsProps.InstructionTypeErrorKeepsState`). The exception ends the `parse` or `parseNext` call in TypeScript. The model does not stop: it keeps reading from that state. An example input is `[asland_x][aslana][aslana][aslani_n]`.
- `AslanTsSpec.InstructionIndices`: when the last element of the array is an object, TypeScript records the index `undefined`. The model records 0.
- `AslanTsSpec.Put`: writes to a JavaScript array at a key that is not an array index are dropped. These are a negative key, and a key of 2^32 - 1 or more, since JavaScript's array indices are 0 to 2^32 - 2 (ECMAScript section 6.1.7). JavaScript stores such a write as an ordinary property. That property does not change the array's `length` and never appears in the returned document, but it can be read back: `+=` on it and the content events see the text written so far, where the model reads `undefined`. The negative key is `-1` before the first element of an array. A large key comes from a data name such as `[asland_4294967295]` inside an array. The minimum index then exceeds the limit, so every later `[asland]` in that array is dropped too, as in JavaScript.
- `AslanTsProps.OpeningRecognised` and `AslanRsProps.OpeningRecognised`: stated for a non-empty prefix only. With the empty prefix neither decoder ever recognises a token. The data handler buffers `[` and moves to the maybe-delimiter state. Only the branch of that handler that extends the buffer can enter the kind state, and it compares the next character with the prefix's first character, which does not exist. TypeScript then goes back to text and keeps the stale `[` (typescript/src/aslan-parser.ts:444-445). Rust flushes the buffer through `exit_delimiter_into_data` (rust/src/aslan_parser.rs:615). So `[d_x]hi` is all text. `AslanTsProps.EmptyPrefixNeverOpens` and `AslanRsProps.EmptyPrefixNeverOpens` prove that no input reaches the kind state, and `EmptyPrefixBracket` in each file gives the step after `[`.
- When a character breaks a candidate opening, the TypeScript code keeps the buffered `[` and the model follows the code. The program's own evidence is that this is not intended. typescript/test/delimiter-like.spec.ts:12-20 expects three parts with `[Your name].` kept as text. The Rust decoder flushes the buffer through `exit_delimiter_into_data` (rust/src/aslan_parser.rs:615). See Findings, row 1.
- The TypeScript test suite expects `null` in some places where the code leaves `''` after the go and multi-document tests. The model follows the code.
- The Rust and TypeScript decoders differ in three places, and each model follows its own code:
  - an empty data name selects the empty key in Rust (`AslanRsProps.EmptyDataNameSelectsEmptyKey`);
  - an empty escape name opens a region only in Rust (`AslanRsProps.EmptyEscapeNameOpensRegion`);
  - an instruction on an empty array gets part 0 in Rust, while TypeScript throws and registers nothing (`AslanRsProps.InstructionPosition`, `AslanTsProps.InstructionTypeErrorKeepsState`).
- `Json2AslanFixed`: the corrected converter is given as recursive functions, not as a second explicit-stack loop.
- The converter does not escape key names or text that contain ASLAN tokens, and neither does the model.
- `Decimal.ParseI64Strict` and `Decimal.ParseUsizeStrict` are reference definitions of Rust's `parse`. Only decimal digit strings without a sign and within range are accepted.

## Findings

| source | as written | input that shows it | evidently intended | confidence | as-written member | corrected member |
|---|---|---|---|---|---|---|
| typescript/src/aslan-parser.ts:431-446 | When a character breaks a candidate opening, only that character becomes text. The buffered `[` is kept in the buffer. After the next `[` the buffer is no longer a prefix of the opening, so no later token is ever recognised. | `[asland_test][aslanp]This is an element with [Your name].[aslanp]This is the second part.` (typescript/test/delimiter-like.spec.ts:12). The second `[aslanp]` is not read as a part token. | Put the buffer and the character into the text and clear the buffer, as the Rust decoder does, so that the test's three parts come out | not executed | AslanTsProps.DelimiterLikeTextHidesNextToken | AslanRsProps.DelimiterLikeTextKeepsNextToken |
| json2aslan/src/convert.ts:32-43 | An array element that is an object or an array is emitted with no `[Pd]` before it; a scalar element gets one (line 42). A top-level array gets no `[Pa]`. A container is never closed before its sibling. After `[Pa][Po]` in a nested frame, the decoder then closes instead of opening. | `{"people":[{"name":"John","age":30},{"name":"Jane","age":25}]}` (json2aslan/test/convert.spec.ts:14-17) | `[Pd]` before every element, `[Pa]` for a top-level array, and a closing kind token for a container that has a sibling after it, as the two array tests expect | not executed | Json2AslanFixed.ArrayOfObjects | Json2AslanFixed.PeopleExample |
