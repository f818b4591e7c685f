// The TypeScript decoder `ASLANParser` (typescript/src/aslan-parser.ts) as
// functions on its whole state: one function per handler, the character
// dispatch `Step`, a run over an input, `close` and `reset`. The class in
// AslanTs implements each of them imperatively and is proved equal to them.
module AslanTsSpec {
  import opened Wrappers
  import opened AslanCommon
  import History
  import Decimal

  // ---------------------------------------------------------------------
  // State.
  // ---------------------------------------------------------------------

  /** An instruction registered on a frame. */
  datatype Registered = Registered(key: Key, name: string, index: int, args: seq<string>, partIndex: int)

  /** A stack frame. The frame's own insertion-type and lock maps of the
    * source are never read, so they are not kept; the flag maps are sets of
    * the property names whose flag is true. */
  datatype Frame = Frame(
    container: Value,
    currentKey: Key,
    minArrayIndex: int,
    voidFields: set<string>,
    alreadySeen: set<string>,
    implicitArrays: set<string>,
    instructions: seq<Registered>)

  /** The token being read: its kind, its name and its arguments. */
  datatype DelimiterData = DelimiterData(suffix: Option<DelimiterType>, content: Option<string>, args: seq<string>)

  datatype Tag = ContentTag | EndTag

  datatype InstructionInfo = InstructionInfo(name: string, args: seq<string>, index: int)

  datatype ContentPart = ContentPart(value: Value, partIndex: int, instructions: Option<seq<InstructionInfo>>)

  /** What a listener would receive (without the `structure` snapshot). */
  datatype Event =
    | ContentEvent(tag: Tag, content: Value, partIndex: int, fieldName: Key, path: seq<string>,
                   instruction: string, args: seq<string>, index: int, multiAslanIndex: int)
    | EndDataEvent(parts: seq<ContentPart>, fieldName: Key, path: seq<string>, multiAslanIndex: int)

  /** The whole decoder state. `finished` and `rootListed` stand for
    * `multiAslanResults`: the documents no frame refers to any more, and
    * whether the live root is its last entry. `events` is the log of what
    * the listeners would be handed. */
  datatype Parser = Parser(
    state: ParserState,
    stack: seq<Frame>,
    currentDelimiter: Option<DelimiterData>,
    currentValue: string,
    delimiterBuffer: string,
    recentDelimiters: seq<DelimiterType>,
    currentEscapeDelimiter: Option<string>,
    parsingLocked: bool,
    didStop: bool,
    dataInsertionTypes: map<string, InsertionType>,
    dataInsertionLocks: set<string>,
    finished: seq<Value>,
    rootListed: bool,
    events: seq<Event>)

  predicate Live(p: Parser) { |p.stack| > 0 }

  const RecentCapacity := 5

  // ---------------------------------------------------------------------
  // Reading and writing JavaScript values.
  // ---------------------------------------------------------------------

  /** `container[key]`: a missing property or an index past the end or a
    * hole reads as `undefined`. */
  function Get(container: Value, k: Key): Value
  {
    match container
    case Obj(m) => if PropertyName(k) in m then m[PropertyName(k)] else Undefined
    case Arr(xs) => if k.Index? && 0 <= k.i < |xs| then xs[k.i] else Undefined
    case _ => Undefined
  }

  function Holes(n: nat): (r: seq<Value>)
    ensures |r| == n && forall i :: 0 <= i < n ==> r[i] == Undefined
  {
    if n == 0 then [] else Holes(n - 1) + [Undefined]
  }

  /** One past the largest JavaScript array index: only the keys 0 to
    * 2^32 - 2 are array indices (ECMAScript section 6.1.7, "array index"). */
  const ArrayIndexLimit := 0xFFFF_FFFF

  /** A key that JavaScript treats as an index of an array. */
  predicate ArrayIndex(k: Key)
  {
    k.Index? && 0 <= k.i < ArrayIndexLimit
  }

  /** Writes that land in the value: any property of an object, an array
    * index of an array. */
  predicate Writable(container: Value, k: Key)
  {
    container.Obj? || (container.Arr? && ArrayIndex(k))
  }

  /** `container[key] = v`; an index past the end leaves holes before it. */
  function Put(container: Value, k: Key, v: Value): (r: Value)
    ensures !Writable(container, k) ==> r == container
    ensures r.Obj? <==> container.Obj?
    ensures r.Arr? <==> container.Arr?
    ensures container.Arr? && Writable(container, k) ==> |r.elems| == if k.i < |container.elems| then |container.elems| else k.i + 1
    ensures container.Arr? && |container.elems| <= ArrayIndexLimit ==> |r.elems| <= ArrayIndexLimit
  {
    match container
    case Obj(m) => Obj(m[PropertyName(k) := v])
    case Arr(xs) =>
      if ArrayIndex(k) then
        if k.i < |xs| then Arr(xs[k.i := v]) else Arr(xs + Holes(k.i - |xs|) + [v])
      else container
    case _ => container
  }

  /** A write is read back, and no other key changes. */
  lemma PutGet(container: Value, k: Key, v: Value, other: Key)
    ensures Writable(container, k) ==> Get(Put(container, k, v), k) == v
    ensures Writable(container, k) && PropertyName(other) != PropertyName(k) && (container.Arr? ==> other.Index? ==> other.i != k.i)
            ==> Get(Put(container, k, v), other) == Get(container, other)
  {
  }

  /** `typeof v === 'object'`, which holds for `null` as well. */
  predicate TypeofObject(v: Value) { v.Obj? || v.Arr? || v.Null? }

  /** The text of a value, as `+=` uses it: an array is its elements'
    * texts joined by `,` (`Array.prototype.toString`). */
  function JsText(v: Value): string
    decreases v, 1
  {
    match v
    case Str(s) => s
    case Null => "null"
    case Undefined => "undefined"
    case Obj(_) => "[object Object]"
    case Arr(xs) => JoinedText(v, |xs|)
  }

  /** An element's text inside `join`: `null` and holes are empty. */
  function ElemText(e: Value): string
    decreases e, 2
  {
    if e.Null? || e.Undefined? then "" else JsText(e)
  }

  /** `join(',')` of the first `n` elements of an array. */
  function JoinedText(v: Value, n: nat): string
    requires v.Arr? && n <= |v.elems|
    decreases v, 0, n
  {
    if n == 0 then ""
    else JoinedText(v, n - 1) + (if n > 1 then "," else "") + ElemText(v.elems[n - 1])
  }

  // ---------------------------------------------------------------------
  // The top frame.
  // ---------------------------------------------------------------------

  function Top(p: Parser): Frame
    requires Live(p)
  {
    p.stack[|p.stack| - 1]
  }

  function WithTop(p: Parser, f: Frame): (r: Parser)
    requires Live(p)
    ensures Live(r) && |r.stack| == |p.stack| && Top(r) == f
    ensures r == p.(stack := r.stack) && r.stack[..|r.stack| - 1] == p.stack[..|p.stack| - 1]
  {
    p.(stack := p.stack[..|p.stack| - 1] + [f])
  }

  function CurrentKey(p: Parser): Key requires Live(p) { Top(p).currentKey }

  function KeyName(p: Parser): string requires Live(p) { PropertyName(CurrentKey(p)) }

  /** `getLatestResult()[getCurrentKey()]`. */
  function Latest(p: Parser): Value requires Live(p) { Get(Top(p).container, CurrentKey(p)) }

  /** `getLatestResult()[getCurrentKey()] = v`. */
  function SetLatest(p: Parser, v: Value): (r: Parser)
    requires Live(p)
    ensures Live(r) && |r.stack| == |p.stack|
    ensures Writable(Top(p).container, CurrentKey(p)) ==> Latest(r) == v
    ensures Top(r) == Top(p).(container := Top(r).container)
    ensures r == p.(stack := r.stack)
  {
    PutGet(Top(p).container, CurrentKey(p), v, CurrentKey(p));
    WithTop(p, Top(p).(container := Put(Top(p).container, CurrentKey(p), v)))
  }

  /** The token being read, with the fields the source reads through `!`
    * defaulted. */
  function DelimOf(d: Option<DelimiterData>): DelimiterData
  {
    if d.Some? then d.value else DelimiterData(None, None, [])
  }

  /** The name of the token being read (`currentDelimiter.content`), empty
    * when there is none. */
  function ContentOf(d: Option<DelimiterData>): string
  {
    if DelimOf(d).content.Some? then DelimOf(d).content.value else ""
  }

  function ArgsOf(d: Option<DelimiterData>): seq<string>
  {
    DelimOf(d).args
  }

  function WithContent(p: Parser, content: string): Parser
  {
    p.(currentDelimiter := Some(DelimOf(p.currentDelimiter).(content := Some(content))))
  }

  function WithArgs(p: Parser, args: seq<string>): Parser
  {
    p.(currentDelimiter := Some(DelimOf(p.currentDelimiter).(args := args)))
  }

  /** `if (this.currentEscapeDelimiter)`: an escape region is open (the empty
    * escape name is falsy). */
  predicate EscapeActive(e: Option<string>)
  {
    e.Some? && e.value != ""
  }

  function MultiAslanIndex(p: Parser): int
  {
    |p.finished| + (if p.rootListed then 1 else 0) - 1
  }

  // ---------------------------------------------------------------------
  // The document tree: frames refer to the containers of their parents.
  // ---------------------------------------------------------------------

  /** Writes a child container into its parent frame at the parent's key. */
  function Place(parent: Frame, child: Value): Frame
  {
    parent.(container := Put(parent.container, parent.currentKey, child))
  }

  /** The root result as the source sees it: every open container sits in its
    * parent at the parent's current key. */
  function Assemble(stack: seq<Frame>): Value
    requires |stack| > 0
    decreases |stack|
  {
    if |stack| == 1 then stack[0].container
    else Assemble(stack[..|stack| - 2] + [Place(stack[|stack| - 2], stack[|stack| - 1].container)])
  }

  /** `stack.pop()`: the closed container stays where it was placed. */
  function PopStack(stack: seq<Frame>): (r: seq<Frame>)
    requires |stack| > 1
    ensures |r| == |stack| - 1
  {
    stack[..|stack| - 2] + [Place(stack[|stack| - 2], stack[|stack| - 1].container)]
  }

  /** Popping a frame changes nothing in the document. */
  lemma PopKeepsDocument(stack: seq<Frame>)
    requires |stack| > 1
    ensures Assemble(PopStack(stack)) == Assemble(stack)
  {
  }

  function RootFrame(s: Settings): Frame
  {
    Frame(Obj(map[s.defaultFieldName := Str("")]), Name(s.defaultFieldName), 0, {}, {}, {}, [])
  }

  /** `getResult()`. */
  function GetResult(p: Parser): Value requires Live(p) { Assemble(p.stack) }

  /** `getResults()`. */
  function Results(p: Parser): seq<Value>
    requires Live(p)
  {
    p.finished + (if p.rootListed then [Assemble(p.stack)] else [])
  }

  /** `new ASLANParser(settings)`. */
  function Initial(s: Settings): (r: Parser)
    ensures Live(r)
  {
    Parser(if s.strictStart then Locked else Start, [RootFrame(s)], None, "", "", [], None,
           s.strictStart, true, map[s.defaultFieldName := Default], {}, [], true, [])
  }

  // ---------------------------------------------------------------------
  // Events.
  // ---------------------------------------------------------------------

  /** `getCurrentPath()`: string keys other than the default field name, and
    * indices as text, from the root frame to the top one. */
  function PathOf(s: Settings, stack: seq<Frame>): seq<string>
    decreases |stack|
  {
    if stack == [] then [] else PathOf(s, stack[..|stack| - 1]) + KeySegment(s, stack[|stack| - 1].currentKey)
  }

  function KeySegment(s: Settings, k: Key): seq<string>
  {
    match k
    case Name(n) => if n != s.defaultFieldName then [n] else []
    case Index(i) => [Decimal.IntText(i)]
  }

  function EventsOn(s: Settings, tag: Tag): bool
  {
    match tag
    case ContentTag => s.emitContent
    case EndTag => s.emitEnd
  }

  /** One event per registered instruction for `key` at part `part`, in
    * registration order. */
  function ContentEvents(instrs: seq<Registered>, tag: Tag, key: Key, part: int, value: Value, path: seq<string>, mai: int): (r: seq<Event>)
    ensures |r| <= |instrs|
    ensures forall j :: 0 <= j < |r| ==> r[j].ContentEvent? && r[j] == ContentEvent(tag, value, part, key, path, r[j].instruction, r[j].args, r[j].index, mai)
    decreases |instrs|
  {
    if instrs == [] then []
    else
      var ins := instrs[|instrs| - 1];
      ContentEvents(instrs[..|instrs| - 1], tag, key, part, value, path, mai)
        + (if ins.key == key && ins.partIndex == part then [ContentEvent(tag, value, part, key, path, ins.name, ins.args, ins.index, mai)] else [])
  }

  /** `emitContentEventsForPrimitive(tag)`. */
  function EmitPrimitive(s: Settings, p: Parser, tag: Tag): (r: Parser)
    requires Live(p)
    ensures r == p.(events := r.events) && p.events <= r.events
  {
    if !EventsOn(s, tag) then p
    else p.(events := p.events + ContentEvents(Top(p).instructions, tag, CurrentKey(p), 0, Latest(p), PathOf(s, p.stack), MultiAslanIndex(p)))
  }

  /** The last part of a field read as an implicit array: `v.length - 1`
    * and `v[v.length - 1]` (a string is indexed by character); a value with
    * no length has none. */
  datatype LastPart = LastPart(index: int, value: Value)

  function LastPartOf(v: Value): (r: Option<LastPart>)
    ensures r.Some? <==> v.Arr? || v.Str?
    ensures v.Arr? && v.elems != [] ==> r == Some(LastPart(|v.elems| - 1, v.elems[|v.elems| - 1]))
  {
    match v
    case Arr(xs) => Some(LastPart(|xs| - 1, if xs == [] then Undefined else xs[|xs| - 1]))
    case Str(x) => Some(LastPart(|x| - 1, if x == [] then Undefined else Str([x[|x| - 1]])))
    case _ => None
  }

  /** `emitContentEventsForImplicitArray(tag)`: the events of the last part. */
  function EmitImplicit(s: Settings, p: Parser, tag: Tag): (r: Parser)
    requires Live(p)
    ensures r == p.(events := r.events) && p.events <= r.events
  {
    if !EventsOn(s, tag) then p
    else
      match LastPartOf(Latest(p))
      case None => p
      case Some(last) =>
        p.(events := p.events + ContentEvents(Top(p).instructions, tag, CurrentKey(p), last.index, last.value,
                                              PathOf(s, p.stack), MultiAslanIndex(p)))
  }

  /** `emitEndEventsIfRequired()`. */
  function EmitEnd(s: Settings, p: Parser): (r: Parser)
    requires Live(p)
    ensures r == p.(events := r.events) && p.events <= r.events
  {
    if !s.emitEnd then p
    else
      var p1 := if !TypeofObject(Latest(p)) then EmitPrimitive(s, p, EndTag) else p;
      if KeyName(p) in Top(p).implicitArrays then EmitImplicit(s, p1, EndTag) else p1
  }

  function Info(ins: Registered): InstructionInfo
  {
    InstructionInfo(ins.name, ins.args, ins.index)
  }

  function Infos(instrs: seq<Registered>): (r: seq<InstructionInfo>)
    ensures |r| == |instrs| && forall i :: 0 <= i < |r| ==> r[i] == Info(instrs[i])
    decreases |instrs|
  {
    if instrs == [] then [] else Infos(instrs[..|instrs| - 1]) + [Info(instrs[|instrs| - 1])]
  }

  /** `instructionsByPartIndex`: the instructions grouped by part index, each
    * group in registration order. */
  function GroupByPart(instrs: seq<Registered>): (r: map<int, seq<InstructionInfo>>)
    decreases |instrs|
  {
    if instrs == [] then map[]
    else
      var g := GroupByPart(instrs[..|instrs| - 1]);
      var ins := instrs[|instrs| - 1];
      g[ins.partIndex := (if ins.partIndex in g then g[ins.partIndex] else []) + [Info(ins)]]
  }

  /** The parts of an implicit array, each with its instructions (absent,
    * i.e. `undefined`, for a part without any). */
  function Parts(xs: seq<Value>, groups: map<int, seq<InstructionInfo>>): (r: seq<ContentPart>)
    ensures |r| == |xs|
    ensures forall i :: 0 <= i < |xs| ==> r[i] == ContentPart(xs[i], i, if i in groups then Some(groups[i]) else None)
    decreases |xs|
  {
    if xs == [] then []
    else
      var i := |xs| - 1;
      Parts(xs[..i], groups) + [ContentPart(xs[i], i, if i in groups then Some(groups[i]) else None)]
  }

  /** `emitEndDataEventsIfRequired()`. For a primitive field the part carries
    * every instruction of the frame, whatever its key. */
  function EmitEndData(s: Settings, p: Parser): (r: Parser)
    requires Live(p)
    ensures r == p.(events := r.events) && p.events <= r.events
  {
    if !s.emitEndData then p
    else match EndDataEventOf(s, p)
      case None => p
      case Some(e) => p.(events := p.events + [e])
  }

  /** The end-data event of the current field, if it has one: a primitive
    * field, or an implicit array. */
  function EndDataEventOf(s: Settings, p: Parser): (r: Option<Event>)
    requires Live(p)
    ensures r.Some? <==> !TypeofObject(Latest(p)) || KeyName(p) in Top(p).implicitArrays
    ensures r.Some? ==> r.value.EndDataEvent? && r.value.fieldName == CurrentKey(p)
  {
    if !TypeofObject(Latest(p)) then
      Some(EndDataEvent([ContentPart(Latest(p), 0, Some(Infos(Top(p).instructions)))],
                        CurrentKey(p), PathOf(s, p.stack), MultiAslanIndex(p)))
    else if KeyName(p) in Top(p).implicitArrays then
      var parts := if Latest(p).Arr? then Parts(Latest(p).elems, GroupByPart(Top(p).instructions)) else [];
      Some(EndDataEvent(parts, CurrentKey(p), PathOf(s, p.stack), MultiAslanIndex(p)))
    else None
  }

  // ---------------------------------------------------------------------
  // Field updates.
  // ---------------------------------------------------------------------

  /** The implicit-array branch of `storeCurrentValue`: the pending text is
    * added to the last part. A field that now holds an object gets it at
    * the key `NaN`; a string, `null` or nothing throws a `TypeError`, and
    * the parser stays as it was. */
  function AppendToLastPart(s: Settings, p: Parser): (r: Parser)
    requires Live(p)
    ensures Live(r)
  {
    match Latest(p)
    case Arr(xs) =>
      if xs == [] then EmitImplicit(s, p, ContentTag)
      else
        var last := |xs| - 1;
        EmitImplicit(s, SetLatest(p, Arr(xs[last := Str(JsText(xs[last]) + p.currentValue)])), ContentTag)
    case Obj(m) =>
      // `obj[obj.length - 1]` is `obj[NaN]` for an object without its own `length`.
      if "length" in m then p
      else EmitImplicit(s, SetLatest(p, Obj(m[NaNKey := Str(JsText(Get(Latest(p), Name(NaNKey))) + p.currentValue)])), ContentTag)
    case _ => p
  }

  /** The property name of `NaN`. */
  const NaNKey := "NaN"

  /** `storeCurrentValue()`. */
  function StoreCurrentValue(s: Settings, p: Parser): (r: Parser)
    requires Live(p)
    ensures Live(r)
  {
    var key := KeyName(p);
    if key in Top(p).voidFields then SetLatest(p.(currentValue := ""), Null)
    else if p.currentValue == "" then p
    else StoreImplicit(s, StorePrimitive(s, StartString(p))).(currentValue := "")
  }

  /** A falsy field becomes the empty string before text is stored into it. */
  function StartString(p: Parser): (r: Parser)
    requires Live(p)
    ensures Live(r)
  {
    if !Truthy(Latest(p)) then SetLatest(p, Str("")) else p
  }

  /** An unlocked field that is not object-typed gets the pending text
    * appended to its text, and the content events of a primitive follow. */
  function StorePrimitive(s: Settings, p: Parser): (r: Parser)
    requires Live(p)
    ensures Live(r)
  {
    if KeyName(p) !in p.dataInsertionLocks && !TypeofObject(Latest(p))
    then EmitPrimitive(s, SetLatest(p, Str(JsText(Latest(p)) + p.currentValue)), ContentTag)
    else p
  }

  /** An unlocked implicit-array field gets the pending text appended to its
    * last part. */
  function StoreImplicit(s: Settings, p: Parser): (r: Parser)
    requires Live(p)
    ensures Live(r)
  {
    if KeyName(p) !in p.dataInsertionLocks && KeyName(p) in Top(p).implicitArrays then AppendToLastPart(s, p) else p
  }

  /** The instructions without those registered for `k`. */
  function WithoutKey(instrs: seq<Registered>, k: Key): (r: seq<Registered>)
    ensures forall i :: 0 <= i < |r| ==> r[i].key != k && r[i] in instrs
    ensures forall i :: 0 <= i < |instrs| && instrs[i].key != k ==> instrs[i] in r
    decreases |instrs|
  {
    if instrs == [] then []
    else WithoutKey(instrs[..|instrs| - 1], k) + (if instrs[|instrs| - 1].key != k then [instrs[|instrs| - 1]] else [])
  }

  /** `setDataInsertionType(type)`: the type is fixed by the first occurrence
    * of a key (in the parser-wide map); a later occurrence of a KEEP_LAST key
    * empties it and drops its instructions, of a KEEP_FIRST key locks it. */
  function SetDataInsertionType(s: Settings, p: Parser, t: InsertionType): (r: Parser)
    requires Live(p)
    ensures Live(r)
  {
    var key := KeyName(p);
    if key in p.dataInsertionTypes then
      match p.dataInsertionTypes[key]
      case KeepLast =>
        var p1 := SetLatest(p, Str(""));
        WithTop(p1, Top(p1).(instructions := WithoutKey(Top(p1).instructions, CurrentKey(p))))
      case KeepFirst => p.(dataInsertionLocks := p.dataInsertionLocks + {key})
      case _ => p
    else p.(dataInsertionTypes := p.dataInsertionTypes[key := t])
  }

  function Max(a: int, b: int): int { if a >= b then a else b }

  /** `nextKey()`. In an array frame a name that `parseInt` reads becomes the
    * index and raises the minimum; otherwise the minimum is used and
    * raised. In an object frame a non-empty name becomes the key, an empty
    * default field turns into `null`, and a key already present is flagged. */
  function NextKey(s: Settings, p: Parser): (r: Parser)
    requires Live(p)
    ensures Live(r) && |r.stack| == |p.stack| && r == p.(stack := r.stack)
  {
    var f := Top(p);
    var content := ContentOf(p.currentDelimiter);
    if f.container.Arr? then
      if content != "" && Decimal.ParseIntLenient(content).Some? then
        var n := Decimal.ParseIntLenient(content).value;
        WithTop(p, f.(currentKey := Index(n), minArrayIndex := Max(f.minArrayIndex, n + 1)))
      else
        WithTop(p, f.(currentKey := Index(f.minArrayIndex), minArrayIndex := f.minArrayIndex + 1))
    else if content != "" then
      var c1 := if f.container.Obj? && s.defaultFieldName in f.container.fields && f.container.fields[s.defaultFieldName] == Str("")
                then Put(f.container, Name(s.defaultFieldName), Null) else f.container;
      var seen := if c1.Obj? && content in c1.fields then f.alreadySeen + {content} else f.alreadySeen;
      WithTop(p, f.(container := c1, currentKey := Name(content), alreadySeen := seen))
    else p
  }

  function EmptyFrame(container: Value, k: Key): Frame
  {
    Frame(container, k, 0, {}, {}, {}, [])
  }

  /** `createNewObject()` / `createNewArray()`: an empty container at the
    * current key, and a frame for it. */
  function CreateNew(s: Settings, p: Parser, isArray: bool): (r: Parser)
    requires Live(p)
    ensures Live(r) && |r.stack| == |p.stack| + 1
  {
    var empty := if isArray then Arr([]) else Obj(map[]);
    var p1 := SetLatest(p.(currentValue := ""), empty);
    p1.(stack := p1.stack + [EmptyFrame(empty, if isArray then Index(-1) else Name(s.defaultFieldName))])
  }

  /** The text of a token that turned out not to be one goes back into the
    * field: `exitDelimiterIntoDATA(char)`. */
  function ExitIntoData(p: Parser, c: char): Parser
  {
    p.(currentValue := p.currentValue + p.delimiterBuffer + [c], delimiterBuffer := "", currentDelimiter := None, state := DataState)
  }

  /** Where an instruction starts in the field: the length of the last part
    * and its index for an array, the length and part 0 for a string. */
  datatype Indices = Indices(index: int, partIndex: int)

  function LengthOf(v: Value): int
  {
    match v
    case Str(x) => |x|
    case Arr(ys) => |ys|
    case _ => 0
  }

  /** Where an instruction or its arguments point into the current value.
    * `None` is the `TypeError` of `array[array.length - 1].length` when the
    * array is empty or ends in `null` or a hole: nothing is registered. */
  function InstructionIndices(v: Value): Option<Indices>
  {
    match v
    case Arr(xs) =>
      if xs == [] || xs[|xs| - 1].Null? || xs[|xs| - 1].Undefined? then None
      else Some(Indices(LengthOf(xs[|xs| - 1]), |xs| - 1))
    case Str(x) => Some(Indices(|x|, 0))
    case _ => Some(Indices(0, 0))
  }

  /** A complete instruction token: it is registered unless the key was
    * already seen and is KEEP_FIRST, and content events follow. */
  function CompleteInstruction(s: Settings, p: Parser, at: Indices): (r: Parser)
    requires Live(p)
    ensures Live(r)
  {
    var key := KeyName(p);
    if key !in Top(p).alreadySeen || !(key in p.dataInsertionTypes && p.dataInsertionTypes[key] == KeepFirst) then
      var ins := Registered(CurrentKey(p), ContentOf(p.currentDelimiter), at.index, ArgsOf(p.currentDelimiter), at.partIndex);
      var p1 := WithTop(p, Top(p).(instructions := Top(p).instructions + [ins]));
      var p2 := if !TypeofObject(Latest(p1)) then EmitPrimitive(s, p1, ContentTag) else p1;
      if key in Top(p2).implicitArrays then EmitImplicit(s, p2, ContentTag) else p2
    else p
  }

  // ---------------------------------------------------------------------
  // Handlers, one per state.
  // ---------------------------------------------------------------------

  function HandleLocked(p: Parser, c: char): Parser
  {
    if c == '[' then p.(state := MaybeDelimiter, delimiterBuffer := [c]) else p
  }

  /** `close()`. */
  function Close(s: Settings, p: Parser): (r: Parser)
    requires Live(p)
    ensures Live(r)
  {
    StoreCurrentValue(s, EmitEndData(s, EmitEnd(s, p)))
  }

  /** `reset()`: a fresh root; the previous document stays in the results if
    * it was listed there. */
  function Reset(s: Settings, p: Parser): (r: Parser)
    requires Live(p)
    ensures Live(r) && |r.stack| == 1
  {
    p.(finished := if p.rootListed then p.finished + [Assemble(p.stack)] else p.finished,
       rootListed := false,
       dataInsertionTypes := map[s.defaultFieldName := Default],
       dataInsertionLocks := {},
       stack := [RootFrame(s)])
  }

  /** `close(); reset(); multiAslanResults.push(stack[0].innerResult)`. */
  function NextDocument(s: Settings, p: Parser): (r: Parser)
    requires Live(p)
    ensures Live(r) && |r.stack| == 1
  {
    Reset(s, Close(s, p)).(rootListed := true)
  }

  function HandleGoDelimiter(s: Settings, p: Parser, c: char): (r: Parser)
    requires Live(p)
    ensures Live(r)
  {
    if c == ']' then EndGoDelimiter(s, p) else ExitIntoData(p, c)
  }

  /** A complete `[Pg]` unlocks parsing; under strict start, a GO that does
    * not directly follow a STOP also begins the next document. */
  function EndGoDelimiter(s: Settings, p: Parser): (r: Parser)
    requires Live(p)
    ensures Live(r)
  {
    var p1 := p.(state := GoState, delimiterBuffer := "", currentValue := "", parsingLocked := false);
    var p2 := if s.strictStart && !p.didStop then NextDocument(s, p1) else p1;
    p2.(didStop := false)
  }

  function HandleStopDelimiter(s: Settings, p: Parser, c: char): (r: Parser)
    requires Live(p)
    ensures Live(r)
  {
    if c == ']' then EndStopDelimiter(s, p) else ExitIntoData(p, c)
  }

  /** A complete `[Ps]`; under strict end it closes the document (and, under
    * strict start too, locks parsing until the next GO). */
  function EndStopDelimiter(s: Settings, p: Parser): (r: Parser)
    requires Live(p)
    ensures Live(r)
  {
    var p1 := p.(state := StopState, delimiterBuffer := "", currentValue := "");
    if s.strictEnd then EndDocument(s, p1) else p1
  }

  /** The end of a document under strict end. */
  function EndDocument(s: Settings, p: Parser): (r: Parser)
    requires Live(p)
    ensures Live(r)
  {
    var p1 := if s.strictStart then p.(parsingLocked := true) else p;
    NextDocument(s, p1).(state := Start, didStop := true)
  }

  function HandleStart(p: Parser, c: char): Parser
  {
    if c == '[' then p.(state := MaybeDelimiter, delimiterBuffer := p.delimiterBuffer + [c])
    else p.(state := DataState, currentValue := p.currentValue + [c])
  }

  /** Matching `[` + prefix one character at a time. On a mismatch only the
    * current character goes into the field: the buffered text is neither
    * written out nor cleared. */
  function HandleMaybeDelimiter(s: Settings, p: Parser, c: char): Parser
  {
    var open := OpenSubstring(s);
    var b := p.delimiterBuffer;
    if |b| > |open| then p.(state := DataState, currentValue := p.currentValue + [c])
    else if |b| < |open| && c == open[|b|] then
      p.(delimiterBuffer := b + [c], state := if b + [c] == open then Delimiter else p.state)
    else p.(state := DataState, currentValue := p.currentValue + [c])
  }

  /** The kind letter: a known one is recorded in the recent delimiters. */
  function HandleDelimiter(s: Settings, p: Parser, c: char): Parser
  {
    if p.parsingLocked && c != 'g' && !s.strictStart then p.(state := Locked)
    else
      var d := DelimiterData(None, None, []);
      match KindOf(c)
      case Some(k) =>
        p.(currentDelimiter := Some(d.(suffix := Some(k))), state := DelimiterStateFor(k),
           delimiterBuffer := p.delimiterBuffer + [c],
           recentDelimiters := History.Added(p.recentDelimiters, k, RecentCapacity))
      case None =>
        if IsAlnum(c) then p.(currentDelimiter := Some(d), state := ReservedDelimiter, delimiterBuffer := p.delimiterBuffer + [c])
        else p.(currentDelimiter := Some(d), state := DataState, currentValue := p.currentValue + [c])
  }

  function HandleReservedDelimiter(p: Parser, c: char): Parser
  {
    if p.parsingLocked then p.(state := Locked)
    else if c != ']' then ExitIntoData(p, c)
    else p.(delimiterBuffer := "", state := DataState, currentValue := "")
  }

  /** `[Po]` and `[Pa]`: open a container or close the current one. */
  function HandleContainerDelimiter(s: Settings, p: Parser, c: char, isArray: bool): (r: Parser)
    requires Live(p)
    ensures Live(r)
  {
    if p.parsingLocked then p.(state := Locked)
    else if EscapeActive(p.currentEscapeDelimiter) then ExitIntoData(p, c)
    else if c == ']' then EndContainerDelimiter(s, p, isArray)
    else ExitIntoData(p, c)
  }

  /** A complete `[Po]` or `[Pa]`. */
  function EndContainerDelimiter(s: Settings, p: Parser, isArray: bool): (r: Parser)
    requires Live(p)
    ensures Live(r)
  {
    ApplyContainerAction(s, p.(state := if isArray then ArrayState else ObjectState, delimiterBuffer := ""), ContainerActionOf(s, p), isArray)
  }

  /** The open-or-close decision of a complete `[Po]` or `[Pa]`, taken on
    * the state before it. */
  function ContainerActionOf(s: Settings, p: Parser): (r: ContainerAction)
    requires Live(p)
    ensures r.Close? ==> |p.stack| > 1
  {
    OpensIff(ObjectSafe(s.collapseObjectStartWhitespace, Latest(p)), TypeofObject(Latest(p)),
             SecondMaterial(p.recentDelimiters) == Some(Data), KeyName(p) in Top(p).alreadySeen, |p.stack|);
    ContainerDecision(ObjectSafe(s.collapseObjectStartWhitespace, Latest(p)), TypeofObject(Latest(p)),
                      SecondMaterial(p.recentDelimiters) == Some(Data), KeyName(p) in Top(p).alreadySeen, |p.stack|)
  }

  function ApplyContainerAction(s: Settings, p: Parser, action: ContainerAction, isArray: bool): (r: Parser)
    requires Live(p) && (action.Close? ==> |p.stack| > 1)
    ensures Live(r)
  {
    match action
    case Open => CreateNew(s, p, isArray)
    case ClearSeenAndOpen => CreateNew(s, WithTop(p, Top(p).(alreadySeen := Top(p).alreadySeen - {KeyName(p)})), isArray)
    case Close => CloseFrame(s, p)
    case KeepRoot => p
  }

  /** Closing a container frame: its end events, then the pop. */
  function CloseFrame(s: Settings, p: Parser): (r: Parser)
    requires |p.stack| > 1
    ensures Live(r)
  {
    var p2 := EmitEndData(s, EmitEnd(s, p));
    p2.(stack := PopStack(p2.stack))
  }

  function HandleInstructionDelimiter(p: Parser, c: char): Parser
  {
    if p.parsingLocked then p.(state := Locked)
    else if EscapeActive(p.currentEscapeDelimiter) then ExitIntoData(p, c)
    else if c == ']' then ExitIntoData(p, c)
    else if c == '_' then WithContent(p.(state := InstructionDelimiterName, delimiterBuffer := p.delimiterBuffer + [c], currentValue := ""), "")
    else ExitIntoData(p, c)
  }

  function HandleInstructionDelimiterName(s: Settings, p: Parser, c: char): (r: Parser)
    requires Live(p)
    ensures Live(r)
  {
    var content := ContentOf(p.currentDelimiter);
    if p.parsingLocked then p.(state := Locked)
    else if content != "" && c == ':' then
      if EndsWithUnderscore(content) then ExitIntoData(p, c)
      else WithArgs(p.(state := InstructionDelimiterArgs, currentValue := "", delimiterBuffer := p.delimiterBuffer + [c]), [""])
    else if c == '_' && content == "" then ExitIntoData(p, c)
    else if c == ']' then
      if EndsWithUnderscore(content) then ExitIntoData(p, c)
      else EndInstructionName(s, p)
    else if !IsNameChar(c) then ExitIntoData(p, c)
    else WithContent(p, content + [c]).(delimiterBuffer := p.delimiterBuffer + [c])
  }

  /** A complete `[Pi_name]`. */
  function EndInstructionName(s: Settings, p: Parser): (r: Parser)
    requires Live(p)
    ensures Live(r)
  {
    var at := InstructionIndices(Latest(p));
    if at.None? then p
    else
      var p1 := CompleteInstruction(s, p.(state := DataState), at.value);
      p1.(delimiterBuffer := "", currentValue := "")
  }

  /** One more character of the last argument. */
  function ExtendLastArg(args: seq<string>, c: char): seq<string>
  {
    if args == [] then args else args[|args| - 1 := args[|args| - 1] + [c]]
  }

  function HandleInstructionDelimiterArgs(s: Settings, p: Parser, c: char): (r: Parser)
    requires Live(p)
    ensures Live(r)
  {
    if p.parsingLocked then p.(state := Locked)
    else if c == ']' then
      var at := InstructionIndices(Latest(p));
      if at.None? then p
      else CompleteInstruction(s, p.(state := DataState, delimiterBuffer := "", currentValue := ""), at.value)
    else if c == ':' then WithArgs(p.(delimiterBuffer := p.delimiterBuffer + [c]), ArgsOf(p.currentDelimiter) + [""])
    else WithArgs(p, ExtendLastArg(ArgsOf(p.currentDelimiter), c)).(delimiterBuffer := p.delimiterBuffer + [c])
  }

  function HandleDataDelimiter(s: Settings, p: Parser, c: char): (r: Parser)
    requires Live(p)
    ensures Live(r)
  {
    if p.parsingLocked then p.(state := Locked)
    else if EscapeActive(p.currentEscapeDelimiter) then ExitIntoData(p, c)
    else if c == ']' then
      if Top(p).container.Arr? then NextElement(s, p) else ExitIntoData(p, c)
    else if c == '_' then WithContent(p.(state := DataDelimiterName, delimiterBuffer := p.delimiterBuffer + [c], currentValue := ""), "")
    else ExitIntoData(p, c)
  }

  /** `[Pd]` in an array: the previous element ends and the next begins. */
  function NextElement(s: Settings, p: Parser): (r: Parser)
    requires Live(p)
    ensures Live(r)
  {
    NextKey(s, EmitEndData(s, EmitEnd(s, p.(state := DataState, delimiterBuffer := "", currentValue := ""))))
  }

  /** `[Pd_name:`: the previous field ends and the key moves to `name`; the
    * arguments follow. */
  function StartDataArgs(s: Settings, p: Parser, c: char): (r: Parser)
    requires Live(p)
    ensures Live(r)
  {
    var p1 := WithArgs(p.(state := DataDelimiterArgs, currentValue := "", delimiterBuffer := p.delimiterBuffer + [c]), [""]);
    NextKey(s, EmitEndData(s, EmitEnd(s, p1)))
  }

  /** A complete `[Pd_name]`: the previous field ends, the key moves to
    * `name`, and its insertion type is fixed as DEFAULT on its first
    * occurrence. */
  function EndDataName(s: Settings, p: Parser): (r: Parser)
    requires Live(p)
    ensures Live(r)
  {
    var p1 := NextKey(s, EmitEndData(s, EmitEnd(s, p.(state := DataState))));
    SetDataInsertionType(s, p1.(delimiterBuffer := "", currentValue := ""), Default)
  }

  function HandleDataDelimiterName(s: Settings, p: Parser, c: char): (r: Parser)
    requires Live(p)
    ensures Live(r)
  {
    var content := ContentOf(p.currentDelimiter);
    if p.parsingLocked then p.(state := Locked)
    else if content != "" && c == ':' then
      if EndsWithUnderscore(content) then ExitIntoData(p, c)
      else StartDataArgs(s, p, c)
    else if c == '_' && content == "" then ExitIntoData(p, c)
    else if c == ']' then
      if EndsWithUnderscore(content) then ExitIntoData(p, c)
      else EndDataName(s, p)
    else if !IsNameChar(c) then ExitIntoData(p, c)
    else WithContent(p, content + [c]).(delimiterBuffer := p.delimiterBuffer + [c])
  }

  function HandleDataDelimiterArgs(s: Settings, p: Parser, c: char): (r: Parser)
    requires Live(p)
    ensures Live(r)
  {
    if p.parsingLocked then p.(state := Locked)
    else if c == ']' then EndDataArgs(s, p)
    else if c == ':' then WithArgs(p.(delimiterBuffer := p.delimiterBuffer + [c]), ArgsOf(p.currentDelimiter) + [""])
    else WithArgs(p, ExtendLastArg(ArgsOf(p.currentDelimiter), c)).(delimiterBuffer := p.delimiterBuffer + [c])
  }

  /** A complete data token with arguments: its first argument sets the
    * insertion type of the key, then the end events of the field. */
  function EndDataArgs(s: Settings, p: Parser): (r: Parser)
    requires Live(p)
    ensures Live(r)
  {
    var arg := if ArgsOf(p.currentDelimiter) == [] then "" else ArgsOf(p.currentDelimiter)[0];
    var p1 := SetDataInsertionType(s, p.(state := DataState, delimiterBuffer := "", currentValue := ""), InsertionFromArg(arg));
    EmitEndData(s, EmitEnd(s, p1))
  }

  function HandleVoidDelimiter(p: Parser, c: char): (r: Parser)
    requires Live(p)
    ensures Live(r)
  {
    if p.parsingLocked then p.(state := Locked)
    else if EscapeActive(p.currentEscapeDelimiter) then ExitIntoData(p, c)
    else if c == ']' then
      var p1 := p.(state := DataState, delimiterBuffer := "", currentValue := "");
      WithTop(p1, Top(p1).(voidFields := Top(p1).voidFields + {KeyName(p1)}))
    else ExitIntoData(p, c)
  }

  function HandleCommentDelimiter(p: Parser, c: char): Parser
  {
    if p.parsingLocked then p.(state := Locked)
    else if EscapeActive(p.currentEscapeDelimiter) then ExitIntoData(p, c)
    else if c == ']' then p.(state := CommentState, delimiterBuffer := "", currentValue := "")
    else ExitIntoData(p, c)
  }

  function HandleEscapeDelimiter(p: Parser, c: char): Parser
  {
    if p.parsingLocked then p.(state := Locked)
    else if c == ']' then ExitIntoData(p, c)
    else if c == '_' then WithContent(p.(state := EscapeDelimiterName, delimiterBuffer := p.delimiterBuffer + [c], currentValue := ""), "")
    else ExitIntoData(p, c)
  }

  /** A complete escape token opens a region, closes the region of the same
    * name, or, for another name, is written into the field as text. */
  function HandleEscapeDelimiterName(s: Settings, p: Parser, c: char): (r: Parser)
    requires Live(p)
    ensures Live(r)
  {
    var content := ContentOf(p.currentDelimiter);
    if p.parsingLocked then p.(state := Locked)
    else if c == '_' && content == "" then ExitIntoData(p, c)
    else if c == ']' then
      if EndsWithUnderscore(content) then ExitIntoData(p, c) else EndEscapeName(s, p, content)
    else if !IsNameChar(c) then ExitIntoData(p, c)
    else WithContent(p, content + [c]).(delimiterBuffer := p.delimiterBuffer + [c])
  }

  /** A complete escape token `[Pe_name]` opens an escape when none is
    * open, closes the open one when the names agree, and otherwise is text
    * of the open escape: its own text is stored into the field. */
  function EndEscapeName(s: Settings, p: Parser, content: string): (r: Parser)
    requires Live(p)
    ensures Live(r)
  {
    var p1 := p.(state := EscapeState, delimiterBuffer := "", currentValue := "");
    if !EscapeActive(p.currentEscapeDelimiter) then p1.(currentEscapeDelimiter := Some(content))
    else if p.currentEscapeDelimiter.value != content then
      ExitIntoData(StoreCurrentValue(s, p1.(currentValue := "[" + s.prefix + "e_" + content)), ']')
    else p1.(currentEscapeDelimiter := None, state := DataState, delimiterBuffer := "", currentValue := "")
  }

  /** `[Pp]`: the field becomes (or grows) an implicit array of parts. */
  function HandlePartDelimiter(s: Settings, p: Parser, c: char): (r: Parser)
    requires Live(p)
    ensures Live(r)
  {
    if p.parsingLocked then p.(state := Locked)
    else if EscapeActive(p.currentEscapeDelimiter) then ExitIntoData(p, c)
    else if c == ']' then NextKey(s, AddPart(s, p).(state := DataState, delimiterBuffer := "", currentValue := ""))
    else ExitIntoData(p, c)
  }

  /** What a complete `[Pp]` does to the field, unless its key is locked: an
    * empty field becomes `[""]`, a string `s` becomes `[s, ""]` (both marked
    * as implicit arrays), and an array gets one more empty part after the
    * end events of the last one. */
  function AddPart(s: Settings, p: Parser): (r: Parser)
    requires Live(p)
    ensures Live(r)
  {
    var key := KeyName(p);
    var v := Latest(p);
    if key in p.dataInsertionLocks then p
    else if !Truthy(v) then
      SetLatest(WithTop(p, Top(p).(implicitArrays := Top(p).implicitArrays + {key})), Arr([Str("")]))
    else if v.Str? then
      SetLatest(WithTop(p, Top(p).(implicitArrays := Top(p).implicitArrays + {key})), Arr([v, Str("")]))
    else if v.Arr? then
      SetLatest(EmitEnd(s, p), Arr(v.elems + [Str("")]))
    else EmitEnd(s, p)
  }

  function HandleGo(p: Parser, c: char): Parser
  {
    if c == '[' then p.(state := MaybeDelimiter, delimiterBuffer := p.delimiterBuffer + [c])
    else ExitIntoData(p, c)
  }

  /** The states right after `[Ps]`, `[Po]` and `[Pa]`: text is collected but
    * not stored. */
  function HandleCollecting(p: Parser, c: char): Parser
  {
    if p.parsingLocked then p.(state := Locked)
    else if c == '[' then p.(state := MaybeDelimiter, delimiterBuffer := p.delimiterBuffer + [c])
    else p.(currentValue := p.currentValue + [c])
  }

  function HandleComment(p: Parser, c: char): Parser
  {
    if p.parsingLocked then p.(state := Locked)
    else if c == '[' then p.(state := MaybeDelimiter, delimiterBuffer := p.delimiterBuffer + [c])
    else p
  }

  /** Inside an escape region every character is stored as text, `[`
    * included. */
  function HandleEscape(s: Settings, p: Parser, c: char): (r: Parser)
    requires Live(p)
    ensures Live(r)
  {
    if p.parsingLocked then p.(state := Locked)
    else StoreCurrentValue(s, EscapeChar(p, c)).(state := DataState, delimiterBuffer := "", currentValue := "")
  }

  /** Inside an escape every character is text; a `[` still moves to the
    * delimiter state first (which storing then leaves). */
  function EscapeChar(p: Parser, c: char): (r: Parser)
  {
    var p1 := if c == '[' then p.(state := MaybeDelimiter, delimiterBuffer := p.delimiterBuffer + [c]) else p;
    p1.(currentValue := p1.currentValue + [c])
  }

  function HandleData(s: Settings, p: Parser, c: char): (r: Parser)
    requires Live(p)
    ensures Live(r)
  {
    if p.parsingLocked then p.(state := Locked)
    else if c == '[' then p.(state := MaybeDelimiter, delimiterBuffer := p.delimiterBuffer + [c])
    else StoreCurrentValue(s, p.(currentValue := p.currentValue + [c]))
  }

  /** `handleNextChar(char)`. */
  function Step(s: Settings, p: Parser, c: char): (r: Parser)
    requires Live(p)
    ensures Live(r)
  {
    match p.state
    case GoDelimiter => HandleGoDelimiter(s, p, c)
    case StopDelimiter => HandleStopDelimiter(s, p, c)
    case GoState => HandleGo(p, c)
    case StopState => HandleCollecting(p, c)
    case Start => HandleStart(p, c)
    case MaybeDelimiter => HandleMaybeDelimiter(s, p, c)
    case Delimiter => HandleDelimiter(s, p, c)
    case ReservedDelimiter => HandleReservedDelimiter(p, c)
    case ObjectState => HandleCollecting(p, c)
    case ArrayState => HandleCollecting(p, c)
    case CommentState => HandleComment(p, c)
    case EscapeState => HandleEscape(s, p, c)
    case InstructionDelimiter => HandleInstructionDelimiter(p, c)
    case InstructionDelimiterName => HandleInstructionDelimiterName(s, p, c)
    case InstructionDelimiterArgs => HandleInstructionDelimiterArgs(s, p, c)
    case DataDelimiter => HandleDataDelimiter(s, p, c)
    case DataDelimiterName => HandleDataDelimiterName(s, p, c)
    case DataDelimiterArgs => HandleDataDelimiterArgs(s, p, c)
    case ObjectDelimiter => HandleContainerDelimiter(s, p, c, false)
    case ArrayDelimiter => HandleContainerDelimiter(s, p, c, true)
    case VoidDelimiter => HandleVoidDelimiter(p, c)
    case CommentDelimiter => HandleCommentDelimiter(p, c)
    case EscapeDelimiter => HandleEscapeDelimiter(p, c)
    case EscapeDelimiterName => HandleEscapeDelimiterName(s, p, c)
    case PartDelimiter => HandlePartDelimiter(s, p, c)
    case DataState => HandleData(s, p, c)
    case Locked => HandleLocked(p, c)
  }

  /** `parseNext(input)`: every character in turn. */
  function Run(s: Settings, p: Parser, input: string): (r: Parser)
    requires Live(p)
    ensures Live(r)
    decreases |input|
  {
    if input == [] then p else Step(s, Run(s, p, input[..|input| - 1]), input[|input| - 1])
  }

  lemma {:induction false} RunAppend(s: Settings, p: Parser, a: string, b: string)
    requires Live(p)
    ensures Run(s, p, a + b) == Run(s, Run(s, p, a), b)
    decreases |b|
  {
    if b == [] {
      assert a + b == a;
    } else {
      assert (a + b)[..|a + b| - 1] == a + b[..|b| - 1];
      RunAppend(s, p, a, b[..|b| - 1]);
    }
  }

  /** What `parse` returns: the root object, or every document. */
  datatype Output = Single(root: Value) | Multiple(documents: seq<Value>)

  function OutputOf(s: Settings, p: Parser): Output
    requires Live(p)
  {
    if s.multiAslanOutput then Multiple(Results(p)) else Single(Assemble(p.stack))
  }

  /** `parse(input)` on a parser in state `p`. */
  function Parse(s: Settings, p: Parser, input: string): (r: Parser)
    requires Live(p)
    ensures Live(r)
  {
    Close(s, Run(s, p, input))
  }
}
