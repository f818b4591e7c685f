// The Rust decoder `ASLANParser` (rust/src/aslan_parser.rs) as functions on
// its whole state: one function per handler, the character dispatch `Step`,
// a run over an input, `close` and `reset`. The class in AslanRs implements
// each of them imperatively and is proved equal to them.
//
// Unlike the TypeScript copy, every frame owns a copy of its container
// (`serde_json::Value` is not shared), so a write lands in the top frame only
// and `sync_stack_to_root` copies each frame back into its parent; the flag
// and type maps belong to the frames; a mismatch in the middle of `[` +
// prefix writes the buffered text out.
module AslanRsSpec {
  import opened Wrappers
  import opened AslanCommon
  import History
  import Decimal

  // ---------------------------------------------------------------------
  // State.
  // ---------------------------------------------------------------------

  /** `ASLANRegisteredInstruction`: registered under the text of its key. */
  datatype Registered = Registered(key: string, name: string, index: nat, args: seq<string>, partIndex: nat)

  /** `ASLANParserStateStackFrame`. The boolean maps are kept as the sets of
    * the keys whose flag is true. */
  datatype Frame = Frame(
    container: Value,
    insertionTypes: map<string, InsertionType>,
    locks: set<string>,
    currentKey: Key,
    minArrayIndex: int,
    voidFields: set<string>,
    alreadySeen: set<string>,
    implicitArrays: set<string>,
    instructions: seq<Registered>)

  /** `ASLANDelimiterData`; its `prefix` is always the settings' prefix and
    * is not kept. */
  datatype DelimiterData = DelimiterData(suffix: Option<DelimiterType>, content: Option<string>, args: seq<string>)

  datatype Tag = ContentTag | EndTag

  datatype InstructionInfo = InstructionInfo(name: string, args: seq<string>, index: nat)

  datatype ContentPart = ContentPart(value: string, partIndex: nat, instructions: seq<InstructionInfo>)

  /** What a listener would receive (without the `structure` snapshot). */
  datatype Event =
    | ContentEvent(tag: Tag, content: string, partIndex: nat, fieldName: string, path: seq<string>,
                   instruction: string, args: seq<string>, index: nat, multiAslanIndex: nat)
    | EndDataEvent(parts: seq<ContentPart>, fieldName: string, path: seq<string>, multiAslanIndex: nat)

  /** The whole decoder state; `results` is `multi_aslan_results` and
    * `events` the log of what the listeners would be handed. */
  datatype Parser = Parser(
    state: ParserState,
    stack: seq<Frame>,
    currentDelimiter: Option<DelimiterData>,
    currentValue: string,
    delimiterBuffer: string,
    recentDelimiters: seq<DelimiterType>,
    currentEscapeDelimiter: Option<string>,
    parsingLocked: bool,
    results: seq<Value>,
    didStop: bool,
    events: seq<Event>)

  predicate Live(p: Parser) { |p.stack| > 0 }

  const RecentCapacity := 5

  // ---------------------------------------------------------------------
  // Reading and writing JSON values.
  // ---------------------------------------------------------------------

  /** `key.parse::<usize>()` on the text of a key: an index is read as
    * itself when it is not negative (Decimal.IndexTextAsUsize), a name is
    * read as a whole. */
  function ArraySlot(k: Key): Option<nat>
  {
    match k
    case Index(i) => if i >= 0 then Some(i) else None
    case Name(n) => Decimal.ParseUsizeStrict(n)
  }

  /** `get_value_at_key`: a property of an object, an element of an array,
    * nothing otherwise. */
  function Get(container: Value, k: Key): Option<Value>
  {
    match container
    case Obj(m) => if PropertyName(k) in m then Some(m[PropertyName(k)]) else None
    case Arr(xs) => if ArraySlot(k).Some? && ArraySlot(k).value < |xs| then Some(xs[ArraySlot(k).value]) else None
    case _ => None
  }

  function Nulls(n: nat): (r: seq<Value>)
    ensures |r| == n && forall i :: 0 <= i < n ==> r[i] == Null
  {
    if n == 0 then [] else Nulls(n - 1) + [Null]
  }

  /** Writes that land: any property of an object, an element of an array
    * at a key that reads as a `usize`. */
  predicate Writable(container: Value, k: Key)
  {
    container.Obj? || (container.Arr? && ArraySlot(k).Some?)
  }

  /** `obj.insert(key, v)`, or `while arr.len() <= idx { arr.push(Null) }`
    * followed by `arr[idx] = v`. */
  function Put(container: Value, k: Key, v: Value): (r: Value)
    ensures !Writable(container, k) ==> r == container
    ensures r.Obj? <==> container.Obj?
    ensures r.Arr? <==> container.Arr?
  {
    match container
    case Obj(m) => Obj(m[PropertyName(k) := v])
    case Arr(xs) =>
      if ArraySlot(k).Some? then
        var j := ArraySlot(k).value;
        if j < |xs| then Arr(xs[j := v]) else Arr(xs + Nulls(j - |xs|) + [v])
      else container
    case _ => container
  }

  /** `arr.push(v)` on the array at a key; anything else is left alone. */
  function PushAt(container: Value, k: Key, v: Value): (r: Value)
  {
    match container
    case Obj(m) =>
      if PropertyName(k) in m && m[PropertyName(k)].Arr? then Obj(m[PropertyName(k) := Arr(m[PropertyName(k)].elems + [v])])
      else container
    case Arr(xs) =>
      if ArraySlot(k).Some? && ArraySlot(k).value < |xs| && xs[ArraySlot(k).value].Arr? then
        var j := ArraySlot(k).value;
        Arr(xs[j := Arr(xs[j].elems + [v])])
      else container
    case _ => container
  }

  /** `v.as_str().unwrap_or("")`. */
  function AsStr(v: Option<Value>): string
  {
    if v.Some? && v.value.Str? then v.value.s else ""
  }

  /** `v.as_array().cloned().unwrap_or_default()`. */
  function AsArr(v: Option<Value>): seq<Value>
  {
    if v.Some? && v.value.Arr? then v.value.elems else []
  }

  /** `v.map(|v| v.is_object() || v.is_array()).unwrap_or(false)`. */
  predicate HoldsContainer(v: Option<Value>)
  {
    v.Some? && v.value.IsContainer()
  }

  /** `n.saturating_sub(1)`. */
  function SatPred(n: nat): nat
  {
    if n == 0 then 0 else n - 1
  }

  // ---------------------------------------------------------------------
  // The top frame.
  // ---------------------------------------------------------------------

  function Top(p: Parser): Frame
    requires Live(p)
  {
    p.stack[|p.stack| - 1]
  }

  function WithTop(p: Parser, f: Frame): (r: Parser)
    requires Live(p)
    ensures Live(r) && |r.stack| == |p.stack| && Top(r) == f
    ensures r == p.(stack := r.stack) && r.stack[..|r.stack| - 1] == p.stack[..|p.stack| - 1]
  {
    p.(stack := p.stack[..|p.stack| - 1] + [f])
  }

  function CurrentKey(p: Parser): Key requires Live(p) { Top(p).currentKey }

  /** `get_current_key_string()`. */
  function KeyName(p: Parser): string requires Live(p) { PropertyName(CurrentKey(p)) }

  /** `get_value_at_key(&current_key)` on the latest result. */
  function Latest(p: Parser): Option<Value> requires Live(p) { Get(Top(p).container, CurrentKey(p)) }

  /** The field holds an object or an array. */
  predicate FieldIsContainer(p: Parser) requires Live(p) { HoldsContainer(Latest(p)) }

  function DelimOf(d: Option<DelimiterData>): DelimiterData
  {
    if d.Some? then d.value else DelimiterData(None, None, [])
  }

  /** `content.clone().unwrap_or_default()`. */
  function ContentOf(d: Option<DelimiterData>): string
  {
    if DelimOf(d).content.Some? then DelimOf(d).content.value else ""
  }

  function ArgsOf(d: Option<DelimiterData>): seq<string>
  {
    DelimOf(d).args
  }

  function WithContent(p: Parser, content: string): Parser
  {
    p.(currentDelimiter := Some(DelimOf(p.currentDelimiter).(content := Some(content))))
  }

  function WithArgs(p: Parser, args: seq<string>): Parser
  {
    p.(currentDelimiter := Some(DelimOf(p.currentDelimiter).(args := args)))
  }

  /** `current_escape_delimiter.is_some()`: an escape region is open, even
    * one with the empty name. */
  predicate EscapeActive(e: Option<string>)
  {
    e.Some?
  }

  /** `multi_aslan_results.len().saturating_sub(1)`. */
  function MultiAslanIndex(p: Parser): nat
  {
    SatPred(|p.results|)
  }

  // ---------------------------------------------------------------------
  // The stack: each frame owns a copy of its container.
  // ---------------------------------------------------------------------

  /** Writes a child container into its parent frame at the parent's key. */
  function Place(parent: Frame, child: Value): Frame
  {
    parent.(container := Put(parent.container, parent.currentKey, child))
  }

  /** The reverse `for` loop of `sync_stack_to_root` from index `i` down:
    * frame `i` is copied into frame `i - 1`, then `i - 1` into `i - 2`. */
  function SyncFrom(stack: seq<Frame>, i: nat): (r: seq<Frame>)
    requires i < |stack|
    ensures |r| == |stack|
    decreases i
  {
    if i == 0 then stack else SyncFrom(stack[i - 1 := Place(stack[i - 1], stack[i].container)], i - 1)
  }

  /** The stack after `sync_stack_to_root`. */
  function Synced(stack: seq<Frame>): (r: seq<Frame>)
    requires |stack| > 0
    ensures |r| == |stack|
  {
    SyncFrom(stack, |stack| - 1)
  }

  /** `sync_stack_to_root()`: the frames are copied down to the root, and the
    * root becomes the last multi-document result. */
  function SyncStackToRoot(p: Parser): (r: Parser)
    requires Live(p)
    ensures Live(r) && |r.stack| == |p.stack|
  {
    var st := Synced(p.stack);
    p.(stack := st, results := if p.results == [] then [] else p.results[|p.results| - 1 := st[0].container])
  }

  /** `set_value_at_key(&current_key, v)`. */
  function SetValueAtKey(p: Parser, v: Value): (r: Parser)
    requires Live(p)
    ensures Live(r) && |r.stack| == |p.stack|
  {
    SyncStackToRoot(WithTop(p, Place(Top(p), v)))
  }

  /** `append_to_array_at_key(&current_key, v)`. */
  function AppendToArrayAtKey(p: Parser, v: Value): (r: Parser)
    requires Live(p)
    ensures Live(r) && |r.stack| == |p.stack|
  {
    SyncStackToRoot(WithTop(p, Top(p).(container := PushAt(Top(p).container, CurrentKey(p), v))))
  }

  function RootFrame(s: Settings): Frame
  {
    Frame(Obj(map[s.defaultFieldName := Str("")]), map[s.defaultFieldName := Default], {}, Name(s.defaultFieldName), 0, {}, {}, {}, [])
  }

  function EmptyFrame(container: Value, k: Key): Frame
  {
    Frame(container, map[], {}, k, 0, {}, {}, {}, [])
  }

  /** `ASLANParser::with_settings(settings)`. */
  function Initial(s: Settings): (r: Parser)
    ensures Live(r)
  {
    Parser(if s.strictStart then Locked else Start, [RootFrame(s)], None, "", "", [], None,
           s.strictStart, [RootFrame(s).container], true, [])
  }

  // ---------------------------------------------------------------------
  // Events.
  // ---------------------------------------------------------------------

  /** `get_current_path()`. */
  function PathOf(s: Settings, stack: seq<Frame>): seq<string>
    decreases |stack|
  {
    if stack == [] then [] else PathOf(s, stack[..|stack| - 1]) + KeySegment(s, stack[|stack| - 1].currentKey)
  }

  function KeySegment(s: Settings, k: Key): seq<string>
  {
    match k
    case Name(n) => if n != s.defaultFieldName then [n] else []
    case Index(i) => [Decimal.IntText(i)]
  }

  function EventsOn(s: Settings, tag: Tag): bool
  {
    match tag
    case ContentTag => s.emitContent
    case EndTag => s.emitEnd
  }

  /** One event per instruction registered for `key` at part `part`, in
    * registration order. */
  function ContentEvents(instrs: seq<Registered>, tag: Tag, key: string, part: nat, value: string, path: seq<string>, mai: nat): (r: seq<Event>)
    ensures |r| <= |instrs|
    ensures forall j :: 0 <= j < |r| ==> r[j].ContentEvent? && r[j] == ContentEvent(tag, value, part, key, path, r[j].instruction, r[j].args, r[j].index, mai)
    decreases |instrs|
  {
    if instrs == [] then []
    else
      var ins := instrs[|instrs| - 1];
      ContentEvents(instrs[..|instrs| - 1], tag, key, part, value, path, mai)
        + (if ins.key == key && ins.partIndex == part then [ContentEvent(tag, value, part, key, path, ins.name, ins.args, ins.index, mai)] else [])
  }

  /** `emit_content_events_for_primitive_with_tag(tag)`. */
  function EmitPrimitive(s: Settings, p: Parser, tag: Tag): (r: Parser)
    requires Live(p)
    ensures r == p.(events := r.events) && p.events <= r.events
  {
    if !EventsOn(s, tag) then p
    else p.(events := p.events + ContentEvents(Top(p).instructions, tag, KeyName(p), 0, AsStr(Latest(p)), PathOf(s, p.stack), MultiAslanIndex(p)))
  }

  /** `emit_content_events_for_implicit_array_with_tag(tag)`: the events of
    * the last part, read from the field as an array (an empty one when it is
    * not an array). */
  function EmitImplicit(s: Settings, p: Parser, tag: Tag): (r: Parser)
    requires Live(p)
    ensures r == p.(events := r.events) && p.events <= r.events
  {
    if !EventsOn(s, tag) then p
    else
      var xs := AsArr(Latest(p));
      var value := if xs == [] then "" else AsStr(Some(xs[|xs| - 1]));
      p.(events := p.events + ContentEvents(Top(p).instructions, tag, KeyName(p), SatPred(|xs|), value, PathOf(s, p.stack), MultiAslanIndex(p)))
  }

  /** `emit_end_events_if_required()`. */
  function EmitEnd(s: Settings, p: Parser): (r: Parser)
    requires Live(p)
    ensures r == p.(events := r.events) && p.events <= r.events
  {
    if !s.emitEnd then p
    else
      var p1 := if !FieldIsContainer(p) then EmitPrimitive(s, p, EndTag) else p;
      if KeyName(p) in Top(p).implicitArrays then EmitImplicit(s, p1, EndTag) else p1
  }

  function Info(ins: Registered): InstructionInfo
  {
    InstructionInfo(ins.name, ins.args, ins.index)
  }

  /** The instructions registered for `key`, as the end-data event lists
    * them. */
  function KeyInfos(instrs: seq<Registered>, key: string): (r: seq<InstructionInfo>)
    ensures |r| <= |instrs|
    decreases |instrs|
  {
    if instrs == [] then []
    else
      var ins := instrs[|instrs| - 1];
      KeyInfos(instrs[..|instrs| - 1], key) + (if ins.key == key then [Info(ins)] else [])
  }

  /** `instructions_by_part`: the instructions of `key` grouped by part
    * index, each group in registration order. */
  function GroupByPart(instrs: seq<Registered>, key: string): (r: map<nat, seq<InstructionInfo>>)
    decreases |instrs|
  {
    if instrs == [] then map[]
    else
      var g := GroupByPart(instrs[..|instrs| - 1], key);
      var ins := instrs[|instrs| - 1];
      if ins.key != key then g
      else g[ins.partIndex := (if ins.partIndex in g then g[ins.partIndex] else []) + [Info(ins)]]
  }

  /** The parts of an implicit array, each with its instructions (none for a
    * part without any). */
  function Parts(xs: seq<Value>, groups: map<nat, seq<InstructionInfo>>): (r: seq<ContentPart>)
    ensures |r| == |xs|
    ensures forall i :: 0 <= i < |xs| ==> r[i] == ContentPart(AsStr(Some(xs[i])), i, if i in groups then groups[i] else [])
    decreases |xs|
  {
    if xs == [] then []
    else
      var i := |xs| - 1;
      Parts(xs[..i], groups) + [ContentPart(AsStr(Some(xs[i])), i, if i in groups then groups[i] else [])]
  }

  /** The end-data event of the current field, if it has one: a field that
    * holds no container and is not an implicit array, or an implicit array. */
  function EndDataEventOf(s: Settings, p: Parser): (r: Option<Event>)
    requires Live(p)
    ensures r.Some? <==> !FieldIsContainer(p) || KeyName(p) in Top(p).implicitArrays
    ensures r.Some? ==> r.value.EndDataEvent? && r.value.fieldName == KeyName(p)
  {
    var key := KeyName(p);
    if !FieldIsContainer(p) && key !in Top(p).implicitArrays then
      Some(EndDataEvent([ContentPart(AsStr(Latest(p)), 0, KeyInfos(Top(p).instructions, key))], key, PathOf(s, p.stack), MultiAslanIndex(p)))
    else if key in Top(p).implicitArrays then
      Some(EndDataEvent(Parts(AsArr(Latest(p)), GroupByPart(Top(p).instructions, key)), key, PathOf(s, p.stack), MultiAslanIndex(p)))
    else None
  }

  /** `emit_end_data_events_if_required()`. */
  function EmitEndData(s: Settings, p: Parser): (r: Parser)
    requires Live(p)
    ensures r == p.(events := r.events) && p.events <= r.events
  {
    if !s.emitEndData then p
    else match EndDataEventOf(s, p)
      case None => p
      case Some(e) => p.(events := p.events + [e])
  }

  // ---------------------------------------------------------------------
  // Field updates.
  // ---------------------------------------------------------------------

  /** The field that is not locked and holds no container gets the pending
    * text appended to its text; the content events of a primitive follow. */
  function StorePrimitive(s: Settings, p: Parser): (r: Parser)
    requires Live(p)
    ensures Live(r)
  {
    if KeyName(p) !in Top(p).locks && !FieldIsContainer(p)
    then EmitPrimitive(s, SetValueAtKey(p, Str(AsStr(Latest(p)) + p.currentValue)), ContentTag)
    else p
  }

  /** An unlocked implicit-array field gets the pending text appended to its
    * last part, and the content events of the last part follow. */
  function StoreImplicit(s: Settings, p: Parser): (r: Parser)
    requires Live(p)
    ensures Live(r)
  {
    if KeyName(p) !in Top(p).locks && KeyName(p) in Top(p).implicitArrays
    then EmitImplicit(s, AppendToLastPart(p), ContentTag)
    else p
  }

  function AppendToLastPart(p: Parser): (r: Parser)
    requires Live(p)
    ensures Live(r)
  {
    var xs := AsArr(Latest(p));
    if Latest(p).Some? && Latest(p).value.Arr? && xs != [] then
      var last := |xs| - 1;
      SetValueAtKey(p, Arr(xs[last := Str(AsStr(Some(xs[last])) + p.currentValue)]))
    else p
  }

  /** `store_current_value()`. The lock and implicit-array flags are read
    * before the primitive write, which changes neither. */
  function StoreCurrentValue(s: Settings, p: Parser): (r: Parser)
    requires Live(p)
    ensures Live(r)
  {
    if KeyName(p) in Top(p).voidFields then SetValueAtKey(p.(currentValue := ""), Null)
    else if p.currentValue == "" then p
    else StoreImplicit(s, StorePrimitive(s, p)).(currentValue := "")
  }

  /** The instructions without those registered for `key` (`retain`). */
  function WithoutKey(instrs: seq<Registered>, key: string): (r: seq<Registered>)
    ensures forall i :: 0 <= i < |r| ==> r[i].key != key && r[i] in instrs
    ensures forall i :: 0 <= i < |instrs| && instrs[i].key != key ==> instrs[i] in r
    decreases |instrs|
  {
    if instrs == [] then []
    else WithoutKey(instrs[..|instrs| - 1], key) + (if instrs[|instrs| - 1].key != key then [instrs[|instrs| - 1]] else [])
  }

  /** `set_data_insertion_type(type)` on the top frame. */
  function SetDataInsertionType(p: Parser, t: InsertionType): (r: Parser)
    requires Live(p)
    ensures Live(r) && |r.stack| == |p.stack|
  {
    var key := KeyName(p);
    var f := Top(p);
    if key in f.insertionTypes then
      match f.insertionTypes[key]
      case KeepLast =>
        var c := if f.container.Obj? then Obj(f.container.fields[key := Str("")]) else f.container;
        WithTop(p, f.(container := c, instructions := WithoutKey(f.instructions, key)))
      case KeepFirst => WithTop(p, f.(locks := f.locks + {key}))
      case _ => p
    else WithTop(p, f.(insertionTypes := f.insertionTypes[key := t]))
  }

  function Max(a: int, b: int): int { if a >= b then a else b }

  /** `next_key()`. In an array frame a name that reads as an `i64` becomes
    * the index and raises the minimum; otherwise the minimum is used and
    * raised. In an object frame any name becomes the key (the empty one
    * too), an empty default field turns into `null` first, and a key already
    * present is flagged. */
  function NextKey(s: Settings, p: Parser): (r: Parser)
    requires Live(p)
    ensures Live(r) && |r.stack| == |p.stack| && r == p.(stack := r.stack)
  {
    var f := Top(p);
    var content := DelimOf(p.currentDelimiter).content;
    if f.container.Arr? then
      if content.Some? && Decimal.ParseI64Strict(content.value).Some? then
        var n := Decimal.ParseI64Strict(content.value).value;
        WithTop(p, f.(currentKey := Index(n), minArrayIndex := Max(f.minArrayIndex, n + 1)))
      else
        WithTop(p, f.(currentKey := Index(f.minArrayIndex), minArrayIndex := f.minArrayIndex + 1))
    else if content.Some? then
      var name := content.value;
      var c1 := if f.container.Obj? && s.defaultFieldName in f.container.fields && f.container.fields[s.defaultFieldName] == Str("")
                then Obj(f.container.fields[s.defaultFieldName := Null]) else f.container;
      var seen := if c1.Obj? && name in c1.fields then f.alreadySeen + {name} else f.alreadySeen;
      WithTop(p, f.(container := c1, currentKey := Name(name), alreadySeen := seen))
    else p
  }

  /** `create_new_object()` / `create_new_array()`: an empty container at the
    * current key of the top frame, and a frame holding a copy of it. */
  function CreateNew(s: Settings, p: Parser, isArray: bool): (r: Parser)
    requires Live(p)
    ensures Live(r) && |r.stack| == |p.stack| + 1
  {
    var empty := if isArray then Arr([]) else Obj(map[]);
    var p1 := WithTop(p.(currentValue := ""), Place(Top(p), empty));
    var inner := Get(Top(p1).container, CurrentKey(p1));
    p1.(stack := p1.stack + [EmptyFrame(if inner.Some? then inner.value else empty, if isArray then Index(-1) else Name(s.defaultFieldName))])
  }

  /** `exit_delimiter_into_data(ch)`: the text of a token that turned out
    * not to be one goes back into the pending text. */
  function ExitIntoData(p: Parser, c: char): Parser
  {
    p.(currentValue := p.currentValue + p.delimiterBuffer + [c], delimiterBuffer := "", currentDelimiter := None, state := DataState)
  }

  /** Where an instruction starts in the field. */
  datatype Indices = Indices(index: nat, partIndex: nat)

  /** `get_instruction_indices()`: for an array, the length of its last
    * element when that is a string and the index of the last element
    * (saturating at 0); for a string, its length and part 0. */
  function InstructionIndices(v: Option<Value>): Indices
  {
    match v
    case Some(Arr(xs)) => Indices(if xs != [] && xs[|xs| - 1].Str? then |xs[|xs| - 1].s| else 0, SatPred(|xs|))
    case Some(Str(x)) => Indices(|x|, 0)
    case _ => Indices(0, 0)
  }

  /** A complete instruction token: it is registered unless the key was
    * already seen and is KEEP_FIRST in this frame, and content events
    * follow. */
  function CompleteInstruction(s: Settings, p: Parser, at: Indices): (r: Parser)
    requires Live(p)
    ensures Live(r)
  {
    var key := KeyName(p);
    var f := Top(p);
    if key !in f.alreadySeen || !(key in f.insertionTypes && f.insertionTypes[key] == KeepFirst) then
      var ins := Registered(key, ContentOf(p.currentDelimiter), at.index, ArgsOf(p.currentDelimiter), at.partIndex);
      var p1 := WithTop(p, f.(instructions := f.instructions + [ins]));
      var p2 := if !FieldIsContainer(p1) then EmitPrimitive(s, p1, ContentTag) else p1;
      if key in Top(p2).implicitArrays then EmitImplicit(s, p2, ContentTag) else p2
    else p
  }

  // ---------------------------------------------------------------------
  // Handlers, one per state.
  // ---------------------------------------------------------------------

  function HandleLocked(p: Parser, c: char): Parser
  {
    if c == '[' then p.(state := MaybeDelimiter, delimiterBuffer := [c]) else p
  }

  /** `close()`. */
  function Close(s: Settings, p: Parser): (r: Parser)
    requires Live(p)
    ensures Live(r) && |r.stack| == |p.stack|
  {
    SyncStackToRoot(StoreCurrentValue(s, EmitEndData(s, EmitEnd(s, p))))
  }

  /** `reset()`: a fresh root frame; nothing else changes. */
  function Reset(s: Settings, p: Parser): (r: Parser)
    ensures Live(r) && |r.stack| == 1
  {
    p.(stack := [RootFrame(s)])
  }

  /** `close(); reset(); multi_aslan_results.push(stack[0].inner_result)`. */
  function NextDocument(s: Settings, p: Parser): (r: Parser)
    requires Live(p)
    ensures Live(r) && |r.stack| == 1
  {
    var p1 := Reset(s, Close(s, p));
    p1.(results := p1.results + [RootFrame(s).container])
  }

  function HandleGoDelimiter(s: Settings, p: Parser, c: char): (r: Parser)
    requires Live(p)
    ensures Live(r)
  {
    if c == ']' then EndGoDelimiter(s, p) else ExitIntoData(p, c)
  }

  /** A complete `[Pg]` unlocks parsing; under strict start, a GO that does
    * not directly follow a STOP also begins the next document. */
  function EndGoDelimiter(s: Settings, p: Parser): (r: Parser)
    requires Live(p)
    ensures Live(r)
  {
    var p1 := p.(state := GoState, delimiterBuffer := "", currentValue := "", parsingLocked := false);
    var p2 := if s.strictStart && !p.didStop then NextDocument(s, p1) else p1;
    p2.(didStop := false)
  }

  function HandleStopDelimiter(s: Settings, p: Parser, c: char): (r: Parser)
    requires Live(p)
    ensures Live(r)
  {
    if c == ']' then EndStopDelimiter(s, p) else ExitIntoData(p, c)
  }

  /** A complete `[Ps]`; under strict end it closes the document (and, under
    * strict start too, locks parsing until the next GO). */
  function EndStopDelimiter(s: Settings, p: Parser): (r: Parser)
    requires Live(p)
    ensures Live(r)
  {
    var p1 := p.(state := StopState, delimiterBuffer := "", currentValue := "");
    if s.strictEnd then EndDocument(s, p1) else p1
  }

  /** The end of a document under strict end. */
  function EndDocument(s: Settings, p: Parser): (r: Parser)
    requires Live(p)
    ensures Live(r)
  {
    var p1 := if s.strictStart then p.(parsingLocked := true) else p;
    NextDocument(s, p1).(state := Start, didStop := true)
  }

  function HandleStart(p: Parser, c: char): Parser
  {
    if c == '[' then p.(state := MaybeDelimiter, delimiterBuffer := p.delimiterBuffer + [c])
    else p.(state := DataState, currentValue := p.currentValue + [c])
  }

  /** Matching `[` + prefix one character at a time; on a mismatch the
    * buffered text and the character go back into the pending text. */
  function HandleMaybeDelimiter(s: Settings, p: Parser, c: char): Parser
  {
    var open := OpenSubstring(s);
    var b := p.delimiterBuffer;
    if |b| > |open| then p.(state := DataState, currentValue := p.currentValue + [c])
    else if |b| < |open| && c == open[|b|] then
      p.(delimiterBuffer := b + [c], state := if b + [c] == open then Delimiter else p.state)
    else ExitIntoData(p, c)
  }

  /** The kind letter: a known one is recorded in the recent delimiters. */
  function HandleDelimiter(s: Settings, p: Parser, c: char): Parser
  {
    if p.parsingLocked && c != 'g' && !s.strictStart then p.(state := Locked)
    else
      var d := DelimiterData(None, None, []);
      match KindOf(c)
      case Some(k) =>
        p.(currentDelimiter := Some(d.(suffix := Some(k))), state := DelimiterStateFor(k),
           delimiterBuffer := p.delimiterBuffer + [c],
           recentDelimiters := History.Added(p.recentDelimiters, k, RecentCapacity))
      case None =>
        if IsAlnum(c) then p.(currentDelimiter := Some(d), state := ReservedDelimiter, delimiterBuffer := p.delimiterBuffer + [c])
        else ExitIntoData(p, c)
  }

  function HandleReservedDelimiter(p: Parser, c: char): Parser
  {
    if p.parsingLocked then p.(state := Locked)
    else if c != ']' then ExitIntoData(p, c)
    else p.(delimiterBuffer := "", state := DataState, currentValue := "")
  }

  /** `get_object_safe_latest_result()`. */
  function ObjectSafeLatest(s: Settings, p: Parser): (r: bool)
    requires Live(p)
    ensures Latest(p).None? || Latest(p) == Some(Null) ==> !r
    ensures FieldIsContainer(p) ==> r
    ensures Latest(p).Some? && Latest(p).value.Str? ==>
              (r <==> if s.collapseObjectStartWhitespace then !Blank(Latest(p).value.s) else Latest(p).value.s != "")
  {
    match Latest(p)
    case None => false
    case Some(v) =>
      if v.Str? then (if s.collapseObjectStartWhitespace then !Blank(v.s) else v.s != "")
      else !v.Null?
  }

  /** `[Po]` and `[Pa]`: open a container or close the current one. */
  function HandleContainerDelimiter(s: Settings, p: Parser, c: char, isArray: bool): (r: Parser)
    requires Live(p)
    ensures Live(r)
  {
    if p.parsingLocked then p.(state := Locked)
    else if EscapeActive(p.currentEscapeDelimiter) then ExitIntoData(p, c)
    else if c == ']' then EndContainerDelimiter(s, p, isArray)
    else ExitIntoData(p, c)
  }

  /** A complete `[Po]` or `[Pa]`. */
  function EndContainerDelimiter(s: Settings, p: Parser, isArray: bool): (r: Parser)
    requires Live(p)
    ensures Live(r)
  {
    ApplyContainerAction(s, p.(state := if isArray then ArrayState else ObjectState, delimiterBuffer := ""), ContainerActionOf(s, p), isArray)
  }

  /** The open-or-close decision of a complete `[Po]` or `[Pa]`; here the
    * container test is `is_object() || is_array()`, false for `null`. */
  function ContainerActionOf(s: Settings, p: Parser): (r: ContainerAction)
    requires Live(p)
    ensures r.Close? ==> |p.stack| > 1
  {
    ContainerDecision(ObjectSafeLatest(s, p), FieldIsContainer(p), SecondMaterial(p.recentDelimiters) == Some(Data),
                      KeyName(p) in Top(p).alreadySeen, |p.stack|)
  }

  function ApplyContainerAction(s: Settings, p: Parser, action: ContainerAction, isArray: bool): (r: Parser)
    requires Live(p) && (action.Close? ==> |p.stack| > 1)
    ensures Live(r)
  {
    match action
    case Open => CreateNew(s, p, isArray)
    case ClearSeenAndOpen => CreateNew(s, WithTop(p, Top(p).(alreadySeen := Top(p).alreadySeen - {KeyName(p)})), isArray)
    case Close => CloseFrame(s, p)
    case KeepRoot => p
  }

  /** Closing a container frame: its end events, the copy down to the root,
    * then the pop. */
  function CloseFrame(s: Settings, p: Parser): (r: Parser)
    requires |p.stack| > 1
    ensures Live(r) && |r.stack| == |p.stack| - 1
  {
    var p1 := SyncStackToRoot(EmitEndData(s, EmitEnd(s, p)));
    p1.(stack := p1.stack[..|p1.stack| - 1])
  }

  function HandleInstructionDelimiter(p: Parser, c: char): Parser
  {
    if p.parsingLocked then p.(state := Locked)
    else if EscapeActive(p.currentEscapeDelimiter) then ExitIntoData(p, c)
    else if c == ']' then ExitIntoData(p, c)
    else if c == '_' then WithContent(p.(state := InstructionDelimiterName, delimiterBuffer := p.delimiterBuffer + [c], currentValue := ""), "")
    else ExitIntoData(p, c)
  }

  function HandleInstructionDelimiterName(s: Settings, p: Parser, c: char): (r: Parser)
    requires Live(p)
    ensures Live(r)
  {
    var content := ContentOf(p.currentDelimiter);
    if p.parsingLocked then p.(state := Locked)
    else if content != "" && c == ':' then
      if EndsWithUnderscore(content) then ExitIntoData(p, c)
      else WithArgs(p.(state := InstructionDelimiterArgs, currentValue := "", delimiterBuffer := p.delimiterBuffer + [c]), [""])
    else if c == '_' && content == "" then ExitIntoData(p, c)
    else if c == ']' then
      if EndsWithUnderscore(content) then ExitIntoData(p, c)
      else EndInstructionName(s, p)
    else if !IsNameChar(c) then ExitIntoData(p, c)
    else WithContent(p, content + [c]).(delimiterBuffer := p.delimiterBuffer + [c])
  }

  /** A complete `[Pi_name]`. */
  function EndInstructionName(s: Settings, p: Parser): (r: Parser)
    requires Live(p)
    ensures Live(r)
  {
    var at := InstructionIndices(Latest(p));
    var p1 := CompleteInstruction(s, p.(state := DataState), at);
    p1.(delimiterBuffer := "", currentValue := "")
  }

  /** One more character of the last argument. */
  function ExtendLastArg(args: seq<string>, c: char): seq<string>
  {
    if args == [] then args else args[|args| - 1 := args[|args| - 1] + [c]]
  }

  function HandleInstructionDelimiterArgs(s: Settings, p: Parser, c: char): (r: Parser)
    requires Live(p)
    ensures Live(r)
  {
    if p.parsingLocked then p.(state := Locked)
    else if c == ']' then
      var at := InstructionIndices(Latest(p));
      CompleteInstruction(s, p.(state := DataState, delimiterBuffer := "", currentValue := ""), at)
    else if c == ':' then WithArgs(p.(delimiterBuffer := p.delimiterBuffer + [c]), ArgsOf(p.currentDelimiter) + [""])
    else WithArgs(p, ExtendLastArg(ArgsOf(p.currentDelimiter), c)).(delimiterBuffer := p.delimiterBuffer + [c])
  }

  function HandleDataDelimiter(s: Settings, p: Parser, c: char): (r: Parser)
    requires Live(p)
    ensures Live(r)
  {
    if p.parsingLocked then p.(state := Locked)
    else if EscapeActive(p.currentEscapeDelimiter) then ExitIntoData(p, c)
    else if c == ']' then
      if Top(p).container.Arr? then NextElement(s, p) else ExitIntoData(p, c)
    else if c == '_' then WithContent(p.(state := DataDelimiterName, delimiterBuffer := p.delimiterBuffer + [c], currentValue := ""), "")
    else ExitIntoData(p, c)
  }

  /** `[Pd]` in an array: the previous element ends and the next begins. */
  function NextElement(s: Settings, p: Parser): (r: Parser)
    requires Live(p)
    ensures Live(r)
  {
    NextKey(s, EmitEndData(s, EmitEnd(s, p.(state := DataState, delimiterBuffer := "", currentValue := ""))))
  }

  /** `[Pd_name:`: the previous field ends and the key moves to `name`; the
    * arguments follow. */
  function StartDataArgs(s: Settings, p: Parser, c: char): (r: Parser)
    requires Live(p)
    ensures Live(r)
  {
    var p1 := WithArgs(p.(state := DataDelimiterArgs, currentValue := "", delimiterBuffer := p.delimiterBuffer + [c]), [""]);
    NextKey(s, EmitEndData(s, EmitEnd(s, p1)))
  }

  /** The separator condition of a complete data token: the key was seen
    * before in this frame, it holds a value that is not a container, and
    * (for a token with arguments) its type is APPEND or DEFAULT. */
  predicate RepeatsText(p: Parser, withArgs: bool)
    requires Live(p)
  {
    var key := KeyName(p);
    key in Top(p).alreadySeen
    && (withArgs ==> key in Top(p).insertionTypes && Top(p).insertionTypes[key] in {Append, Default})
    && Latest(p).Some? && !FieldIsContainer(p)
  }

  /** `current_value = append_separator; store_current_value()` for a repeated
    * key, then the pending text is cleared. */
  function AppendSeparator(s: Settings, p: Parser, withArgs: bool): (r: Parser)
    requires Live(p)
    ensures Live(r)
  {
    if RepeatsText(p, withArgs) then StoreCurrentValue(s, p.(currentValue := s.appendSeparator)).(currentValue := "")
    else p.(currentValue := "")
  }

  /** A complete `[Pd_name]`: the previous field ends, the key moves to
    * `name`, its insertion type is fixed as DEFAULT on its first occurrence,
    * and a repeated text field gets the separator. */
  function EndDataName(s: Settings, p: Parser): (r: Parser)
    requires Live(p)
    ensures Live(r)
  {
    var p1 := NextKey(s, EmitEndData(s, EmitEnd(s, p.(state := DataState))));
    AppendSeparator(s, SetDataInsertionType(p1.(delimiterBuffer := ""), Default), false)
  }

  function HandleDataDelimiterName(s: Settings, p: Parser, c: char): (r: Parser)
    requires Live(p)
    ensures Live(r)
  {
    var content := ContentOf(p.currentDelimiter);
    if p.parsingLocked then p.(state := Locked)
    else if content != "" && c == ':' then
      if EndsWithUnderscore(content) then ExitIntoData(p, c)
      else StartDataArgs(s, p, c)
    else if c == '_' && content == "" then ExitIntoData(p, c)
    else if c == ']' then
      if EndsWithUnderscore(content) then ExitIntoData(p, c)
      else EndDataName(s, p)
    else if !IsNameChar(c) then ExitIntoData(p, c)
    else WithContent(p, content + [c]).(delimiterBuffer := p.delimiterBuffer + [c])
  }

  function HandleDataDelimiterArgs(s: Settings, p: Parser, c: char): (r: Parser)
    requires Live(p)
    ensures Live(r)
  {
    if p.parsingLocked then p.(state := Locked)
    else if c == ']' then EndDataArgs(s, p)
    else if c == ':' then WithArgs(p.(delimiterBuffer := p.delimiterBuffer + [c]), ArgsOf(p.currentDelimiter) + [""])
    else WithArgs(p, ExtendLastArg(ArgsOf(p.currentDelimiter), c)).(delimiterBuffer := p.delimiterBuffer + [c])
  }

  /** A complete data token with arguments: its first argument sets the
    * insertion type of the key, the end events of the field follow, and a
    * repeated text field of type APPEND or DEFAULT gets the separator. */
  function EndDataArgs(s: Settings, p: Parser): (r: Parser)
    requires Live(p)
    ensures Live(r)
  {
    var arg := if ArgsOf(p.currentDelimiter) == [] then "" else ArgsOf(p.currentDelimiter)[0];
    var p1 := SetDataInsertionType(p.(state := DataState, delimiterBuffer := ""), InsertionFromArg(arg));
    AppendSeparator(s, EmitEndData(s, EmitEnd(s, p1)), true)
  }

  function HandleVoidDelimiter(p: Parser, c: char): (r: Parser)
    requires Live(p)
    ensures Live(r)
  {
    if p.parsingLocked then p.(state := Locked)
    else if EscapeActive(p.currentEscapeDelimiter) then ExitIntoData(p, c)
    else if c == ']' then
      var p1 := p.(state := DataState, delimiterBuffer := "", currentValue := "");
      WithTop(p1, Top(p1).(voidFields := Top(p1).voidFields + {KeyName(p1)}))
    else ExitIntoData(p, c)
  }

  function HandleCommentDelimiter(p: Parser, c: char): Parser
  {
    if p.parsingLocked then p.(state := Locked)
    else if EscapeActive(p.currentEscapeDelimiter) then ExitIntoData(p, c)
    else if c == ']' then p.(state := CommentState, delimiterBuffer := "", currentValue := "")
    else ExitIntoData(p, c)
  }

  function HandleEscapeDelimiter(p: Parser, c: char): Parser
  {
    if p.parsingLocked then p.(state := Locked)
    else if c == ']' then ExitIntoData(p, c)
    else if c == '_' then WithContent(p.(state := EscapeDelimiterName, delimiterBuffer := p.delimiterBuffer + [c], currentValue := ""), "")
    else ExitIntoData(p, c)
  }

  function HandleEscapeDelimiterName(s: Settings, p: Parser, c: char): (r: Parser)
    requires Live(p)
    ensures Live(r)
  {
    var content := ContentOf(p.currentDelimiter);
    if p.parsingLocked then p.(state := Locked)
    else if c == '_' && content == "" then ExitIntoData(p, c)
    else if c == ']' then
      if EndsWithUnderscore(content) then ExitIntoData(p, c) else EndEscapeName(s, p, content)
    else if !IsNameChar(c) then ExitIntoData(p, c)
    else WithContent(p, content + [c]).(delimiterBuffer := p.delimiterBuffer + [c])
  }

  /** A complete escape token `[Pe_name]` opens an escape when none is
    * open, closes the open one when the names agree, and otherwise is text
    * of the open escape: its own text is stored into the field. */
  function EndEscapeName(s: Settings, p: Parser, content: string): (r: Parser)
    requires Live(p)
    ensures Live(r)
  {
    var p1 := p.(state := EscapeState, delimiterBuffer := "", currentValue := "");
    if p.currentEscapeDelimiter.None? then p1.(currentEscapeDelimiter := Some(content))
    else if p.currentEscapeDelimiter.value != content then
      ExitIntoData(StoreCurrentValue(s, p1.(currentValue := "[" + s.prefix + "e_" + content)), ']')
    else p1.(currentEscapeDelimiter := None, state := DataState, delimiterBuffer := "", currentValue := "")
  }

  function HandlePartDelimiter(s: Settings, p: Parser, c: char): (r: Parser)
    requires Live(p)
    ensures Live(r)
  {
    if p.parsingLocked then p.(state := Locked)
    else if EscapeActive(p.currentEscapeDelimiter) then ExitIntoData(p, c)
    else if c == ']' then NextKey(s, AddPart(s, p).(state := DataState, delimiterBuffer := "", currentValue := ""))
    else ExitIntoData(p, c)
  }

  /** JavaScript-like falsiness of `get_value_at_key`: missing, `null` or the
    * empty string. */
  predicate Falsy(v: Option<Value>)
  {
    v.None? || v == Some(Null) || v == Some(Str(""))
  }

  /** What a complete `[Pp]` does to the field, unless its key is locked: an
    * empty field becomes `[""]`, a string `s` becomes `[s, ""]` (both marked
    * as implicit arrays), and an array gets one more empty part after the
    * end events of the last one. */
  function AddPart(s: Settings, p: Parser): (r: Parser)
    requires Live(p)
    ensures Live(r)
  {
    var key := KeyName(p);
    var v := Latest(p);
    if key in Top(p).locks then p
    else if Falsy(v) then
      SetValueAtKey(WithTop(p, Top(p).(implicitArrays := Top(p).implicitArrays + {key})), Arr([Str("")]))
    else if v.value.Str? then
      SetValueAtKey(WithTop(p, Top(p).(implicitArrays := Top(p).implicitArrays + {key})), Arr([v.value, Str("")]))
    else if v.value.Arr? then
      AppendToArrayAtKey(EmitEnd(s, p), Str(""))
    else p
  }

  function HandleGo(p: Parser, c: char): Parser
  {
    if c == '[' then p.(state := MaybeDelimiter, delimiterBuffer := p.delimiterBuffer + [c])
    else ExitIntoData(p, c)
  }

  /** The states right after `[Ps]`, `[Po]` and `[Pa]`: text is collected but
    * not stored. */
  function HandleCollecting(p: Parser, c: char): Parser
  {
    if p.parsingLocked then p.(state := Locked)
    else if c == '[' then p.(state := MaybeDelimiter, delimiterBuffer := p.delimiterBuffer + [c])
    else p.(currentValue := p.currentValue + [c])
  }

  function HandleComment(p: Parser, c: char): Parser
  {
    if p.parsingLocked then p.(state := Locked)
    else if c == '[' then p.(state := MaybeDelimiter, delimiterBuffer := p.delimiterBuffer + [c])
    else p
  }

  /** Inside an escape region every character is stored as text, `[`
    * included. */
  function HandleEscape(s: Settings, p: Parser, c: char): (r: Parser)
    requires Live(p)
    ensures Live(r)
  {
    if p.parsingLocked then p.(state := Locked)
    else StoreCurrentValue(s, EscapeChar(p, c)).(state := DataState, delimiterBuffer := "", currentValue := "")
  }

  /** A `[` still moves to the delimiter state first (which storing then
    * leaves). */
  function EscapeChar(p: Parser, c: char): (r: Parser)
  {
    var p1 := if c == '[' then p.(state := MaybeDelimiter, delimiterBuffer := p.delimiterBuffer + [c]) else p;
    p1.(currentValue := p1.currentValue + [c])
  }

  function HandleData(s: Settings, p: Parser, c: char): (r: Parser)
    requires Live(p)
    ensures Live(r)
  {
    if p.parsingLocked then p.(state := Locked)
    else if c == '[' then p.(state := MaybeDelimiter, delimiterBuffer := p.delimiterBuffer + [c])
    else StoreCurrentValue(s, p.(currentValue := p.currentValue + [c]))
  }

  /** `handle_next_char(ch)`. */
  function Step(s: Settings, p: Parser, c: char): (r: Parser)
    requires Live(p)
    ensures Live(r)
  {
    match p.state
    case GoDelimiter => HandleGoDelimiter(s, p, c)
    case StopDelimiter => HandleStopDelimiter(s, p, c)
    case GoState => HandleGo(p, c)
    case StopState => HandleCollecting(p, c)
    case Start => HandleStart(p, c)
    case MaybeDelimiter => HandleMaybeDelimiter(s, p, c)
    case Delimiter => HandleDelimiter(s, p, c)
    case ReservedDelimiter => HandleReservedDelimiter(p, c)
    case ObjectState => HandleCollecting(p, c)
    case ArrayState => HandleCollecting(p, c)
    case CommentState => HandleComment(p, c)
    case EscapeState => HandleEscape(s, p, c)
    case InstructionDelimiter => HandleInstructionDelimiter(p, c)
    case InstructionDelimiterName => HandleInstructionDelimiterName(s, p, c)
    case InstructionDelimiterArgs => HandleInstructionDelimiterArgs(s, p, c)
    case DataDelimiter => HandleDataDelimiter(s, p, c)
    case DataDelimiterName => HandleDataDelimiterName(s, p, c)
    case DataDelimiterArgs => HandleDataDelimiterArgs(s, p, c)
    case ObjectDelimiter => HandleContainerDelimiter(s, p, c, false)
    case ArrayDelimiter => HandleContainerDelimiter(s, p, c, true)
    case VoidDelimiter => HandleVoidDelimiter(p, c)
    case CommentDelimiter => HandleCommentDelimiter(p, c)
    case EscapeDelimiter => HandleEscapeDelimiter(p, c)
    case EscapeDelimiterName => HandleEscapeDelimiterName(s, p, c)
    case PartDelimiter => HandlePartDelimiter(s, p, c)
    case DataState => HandleData(s, p, c)
    case Locked => HandleLocked(p, c)
  }

  /** `parse_next(input)`: every character in turn. */
  function Run(s: Settings, p: Parser, input: string): (r: Parser)
    requires Live(p)
    ensures Live(r)
    decreases |input|
  {
    if input == [] then p else Step(s, Run(s, p, input[..|input| - 1]), input[|input| - 1])
  }

  lemma {:induction false} RunAppend(s: Settings, p: Parser, a: string, b: string)
    requires Live(p)
    ensures Run(s, p, a + b) == Run(s, Run(s, p, a), b)
    decreases |b|
  {
    if b == [] {
      assert a + b == a;
    } else {
      assert (a + b)[..|a + b| - 1] == a + b[..|b| - 1];
      RunAppend(s, p, a, b[..|b| - 1]);
    }
  }

  /** What `parse` returns: the root frame's copy, or every document. */
  datatype Output = Single(root: Value) | Multiple(documents: seq<Value>)

  function OutputOf(s: Settings, p: Parser): Output
    requires Live(p)
  {
    if s.multiAslanOutput then Multiple(p.results) else Single(p.stack[0].container)
  }

  /** `parse(input)` on a parser in state `p`. */
  function Parse(s: Settings, p: Parser, input: string): (r: Parser)
    requires Live(p)
    ensures Live(r)
  {
    Close(s, Run(s, p, input))
  }
}
