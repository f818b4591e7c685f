// The TypeScript `ASLANParser` class (typescript/src/aslan-parser.ts): the
// decoder object whose fields change one character at a time. Every method
// is proved to change the whole state, `Snap()`, exactly as the function of
// the same name in AslanTsSpec does.
//
// Each method body starts by hiding the specification functions of the
// methods it calls: their contracts say all that is needed, and unfolding
// them as well only makes the proofs slower.
module AslanTs {
  import opened Wrappers
  import opened AslanCommon
  import Spec = AslanTsSpec
  import RecentItemsTs
  import Decimal

  /** `instructionsByPartIndex`, built by the loop of
    * `emitEndDataEventsIfRequired`. */
  method GroupByPartIndex(instrs: seq<Spec.Registered>) returns (groups: map<int, seq<Spec.InstructionInfo>>)
    ensures groups == Spec.GroupByPart(instrs)
  {
    groups := map[];
    for i := 0 to |instrs|
      invariant groups == Spec.GroupByPart(instrs[..i])
    {
      assert instrs[..i + 1][..i] == instrs[..i];
      var ins := instrs[i];
      if ins.partIndex !in groups {
        groups := groups[ins.partIndex := []];
      }
      groups := groups[ins.partIndex := groups[ins.partIndex] + [Spec.InstructionInfo(ins.name, ins.args, ins.index)]];
    }
    assert instrs[..|instrs|] == instrs;
  }

  /** The `for (let i = 0; …)` loop of `emitEndDataEventsIfRequired`: every
    * part of an implicit array with its instructions. */
  method ContentParts(xs: seq<Value>, groups: map<int, seq<Spec.InstructionInfo>>) returns (parts: seq<Spec.ContentPart>)
    ensures parts == Spec.Parts(xs, groups)
  {
    parts := [];
    for i := 0 to |xs|
      invariant parts == Spec.Parts(xs[..i], groups)
    {
      assert xs[..i + 1][..i] == xs[..i];
      parts := parts + [Spec.ContentPart(xs[i], i, if i in groups then Some(groups[i]) else None)];
    }
    assert xs[..|xs|] == xs;
  }

  /** The `for (const instruction of registeredInstructions)` loop of the
    * content-event emitters: the instructions of another key or part are
    * skipped. */
  method ContentEventsFor(instrs: seq<Spec.Registered>, tag: Spec.Tag, key: Key, part: int, value: Value, path: seq<string>, mai: int)
    returns (emitted: seq<Spec.Event>)
    ensures emitted == Spec.ContentEvents(instrs, tag, key, part, value, path, mai)
  {
    emitted := [];
    for i := 0 to |instrs|
      invariant emitted == Spec.ContentEvents(instrs[..i], tag, key, part, value, path, mai)
    {
      assert instrs[..i + 1][..i] == instrs[..i];
      var ins := instrs[i];
      if ins.key == key && ins.partIndex == part {
        emitted := emitted + [Spec.ContentEvent(tag, value, part, key, path, ins.name, ins.args, ins.index, mai)];
      }
    }
    assert instrs[..|instrs|] == instrs;
  }

  class ASLANParser {
    const settings: Settings
    const delimiterOpenSubstring: string
    const recentDelimiters: RecentItemsTs.RecentItems<DelimiterType>
    var state: ParserState
    var stack: seq<Spec.Frame>
    var currentDelimiter: Option<Spec.DelimiterData>
    var currentValue: string
    var delimiterBuffer: string
    var currentEscapeDelimiter: Option<string>
    var parsingLocked: bool
    var didStop: bool
    var dataInsertionTypes: map<string, InsertionType>
    var dataInsertionLocks: set<string>
    /** `multiAslanResults`: the documents already reset away, and whether
      * the live root is listed after them. */
    var finished: seq<Value>
    var rootListed: bool
    /** What the listeners have been handed. */
    var events: seq<Spec.Event>

    ghost predicate Valid()
      reads this, recentDelimiters
    {
      |stack| > 0 && recentDelimiters.Valid() && recentDelimiters.maxSize == Spec.RecentCapacity
      && delimiterOpenSubstring == OpenSubstring(settings)
    }

    ghost function Snap(): (r: Spec.Parser)
      reads this, recentDelimiters
    {
      Spec.Parser(state, stack, currentDelimiter, currentValue, delimiterBuffer, recentDelimiters.items,
                  currentEscapeDelimiter, parsingLocked, didStop, dataInsertionTypes, dataInsertionLocks,
                  finished, rootListed, events)
    }

    constructor (settings: Settings)
      ensures Valid() && this.settings == settings && fresh(recentDelimiters)
      ensures Snap() == Spec.Initial(settings)
    {
      this.settings := settings;
      delimiterOpenSubstring := "[" + settings.prefix;
      recentDelimiters := new RecentItemsTs.RecentItems<DelimiterType>.Default();
      state := Start;
      stack := [Spec.RootFrame(settings)];
      currentDelimiter := None;
      currentValue := "";
      delimiterBuffer := "";
      currentEscapeDelimiter := None;
      parsingLocked := false;
      didStop := true;
      dataInsertionTypes := map[settings.defaultFieldName := Default];
      dataInsertionLocks := {};
      finished := [];
      rootListed := false;
      events := [];
      new;
      if settings.strictStart {
        parsingLocked := true;
        state := Locked;
      }
      rootListed := true;
    }

    // -------------------------------------------------------------------
    // Reading the state.
    // -------------------------------------------------------------------

    function TopFrame(): Spec.Frame
      reads this
      requires |stack| > 0
    {
      stack[|stack| - 1]
    }

    /** `getCurrentKey()`. */
    function GetCurrentKey(): Key
      reads this
      requires |stack| > 0
    {
      TopFrame().currentKey
    }

    /** `getLatestResult()[getCurrentKey()]`. */
    function LatestField(): Value
      reads this
      requires |stack| > 0
    {
      Spec.Get(TopFrame().container, TopFrame().currentKey)
    }

    /** `getResult()`: the root document with every open container in place. */
    function GetResult(): (r: Value)
      reads this
      requires |stack| > 0
    {
      Spec.Assemble(stack)
    }

    /** `getResults()`. */
    method GetResults() returns (r: seq<Value>)
      requires Valid()
      ensures r == Spec.Results(Snap())
    {
      r := finished + if rootListed then [GetResult()] else [];
    }

    /** `get2ndMostRecentMaterialDelimiter()`. */
    method Get2ndMostRecentMaterialDelimiter() returns (r: Option<DelimiterType>)
      requires Valid()
      ensures r == SecondMaterial(recentDelimiters.items)
    {
      var found := recentDelimiters.GetNthMostRecentNotIn(2, {Comment, Escape});
      r := if found.Ok? then found.value else None;
    }

    /** `getCurrentPath()`. */
    method GetCurrentPath() returns (path: seq<string>)
      requires Valid()
      ensures path == Spec.PathOf(settings, stack)
    {
      path := [];
      for i := 0 to |stack|
        invariant path == Spec.PathOf(settings, stack[..i])
      {
        assert stack[..i + 1][..i] == stack[..i];
        match stack[i].currentKey {
          case Name(n) =>
            if n != settings.defaultFieldName {
              path := path + [n];
            }
          case Index(k) =>
            path := path + [Decimal.IntText(k)];
        }
      }
      assert stack[..|stack|] == stack;
    }

    // -------------------------------------------------------------------
    // Writing the state.
    // -------------------------------------------------------------------

    /** `getLatestResult()[getCurrentKey()] = v`. */
    method SetLatestField(v: Value)
      requires Valid()
      modifies this
      ensures Valid() && Snap() == Spec.SetLatest(old(Snap()), v)
    {
      var top := TopFrame();
      stack := stack[..|stack| - 1] + [top.(container := Spec.Put(top.container, top.currentKey, v))];
    }

    method SetTopFrame(f: Spec.Frame)
      requires Valid()
      modifies this
      ensures Valid() && Snap() == Spec.WithTop(old(Snap()), f)
    {
      stack := stack[..|stack| - 1] + [f];
    }

    method ExitDelimiterIntoData(c: char)
      requires Valid()
      modifies this
      ensures Valid() && Snap() == Spec.ExitIntoData(old(Snap()), c)
    {
      currentValue := currentValue + delimiterBuffer + [c];
      delimiterBuffer := "";
      currentDelimiter := None;
      state := DataState;
    }

    // -------------------------------------------------------------------
    // Events.
    // -------------------------------------------------------------------

    /** The loop shared by `emitContentEventsForPrimitive` and
      * `emitContentEventsForImplicitArray`: one event per instruction
      * registered for the current key at `part`. */
    method EmitForPart(tag: Spec.Tag, part: int, value: Value)
      requires Valid()
      modifies this
      ensures Valid()
      ensures Snap() == old(Snap()).(events := old(events) + Spec.ContentEvents(TopFrame().instructions, tag, GetCurrentKey(), part, value,
                                                                                  Spec.PathOf(settings, stack), Spec.MultiAslanIndex(old(Snap()))))
    {
      hide Spec.ContentEvents, Spec.PathOf;
      var path := GetCurrentPath();
      var mai := |finished| + (if rootListed then 1 else 0) - 1;
      var emitted := ContentEventsFor(TopFrame().instructions, tag, GetCurrentKey(), part, value, path, mai);
      events := events + emitted;
    }

    method EmitContentEventsForPrimitive(tag: Spec.Tag)
      requires Valid()
      modifies this
      ensures Valid() && Snap() == Spec.EmitPrimitive(settings, old(Snap()), tag)
    {
      if !Spec.EventsOn(settings, tag) {
        return;
      }
      EmitForPart(tag, 0, LatestField());
    }

    method EmitContentEventsForImplicitArray(tag: Spec.Tag)
      requires Valid()
      modifies this
      ensures Valid() && Snap() == Spec.EmitImplicit(settings, old(Snap()), tag)
    {
      if !Spec.EventsOn(settings, tag) {
        return;
      }
      match Spec.LastPartOf(LatestField()) {
        case None =>
        case Some(last) => EmitForPart(tag, last.index, last.value);
      }
    }

    method EmitEndEventsIfRequired()
      requires Valid()
      modifies this
      ensures Valid() && Snap() == Spec.EmitEnd(settings, old(Snap()))
    {
      hide Spec.EmitPrimitive, Spec.EmitImplicit;
      if !settings.emitEnd {
        return;
      }
      if !Spec.TypeofObject(LatestField()) {
        EmitContentEventsForPrimitive(Spec.EndTag);
      }
      if PropertyName(GetCurrentKey()) in TopFrame().implicitArrays {
        EmitContentEventsForImplicitArray(Spec.EndTag);
      }
    }

    method EmitEndDataEventsIfRequired()
      requires Valid()
      modifies this
      ensures Valid() && Snap() == Spec.EmitEndData(settings, old(Snap()))
    {
      hide Spec.EndDataEventOf;
      if !settings.emitEndData {
        return;
      }
      var e := EndDataEvent();
      if e.Some? {
        events := events + [e.value];
      }
    }

    /** The event `emitEndDataEventsIfRequired()` hands to the listeners. */
    method EndDataEvent() returns (e: Option<Spec.Event>)
      requires Valid()
      ensures e == Spec.EndDataEventOf(settings, Snap())
    {
      hide Spec.GroupByPart, Spec.Parts, Spec.PathOf;
      var latest := LatestField();
      var mai := |finished| + (if rootListed then 1 else 0) - 1;
      if !Spec.TypeofObject(latest) {
        var path := GetCurrentPath();
        var content := [Spec.ContentPart(latest, 0, Some(Spec.Infos(TopFrame().instructions)))];
        return Some(Spec.EndDataEvent(content, GetCurrentKey(), path, mai));
      }
      if PropertyName(GetCurrentKey()) in TopFrame().implicitArrays {
        var groups := GroupByPartIndex(TopFrame().instructions);
        var content := [];
        if latest.Arr? {
          content := ContentParts(latest.elems, groups);
        }
        var path := GetCurrentPath();
        return Some(Spec.EndDataEvent(content, GetCurrentKey(), path, mai));
      }
      return None;
    }

    // -------------------------------------------------------------------
    // Field updates.
    // -------------------------------------------------------------------

    method StoreCurrentValue()
      requires Valid()
      modifies this
      ensures Valid() && Snap() == Spec.StoreCurrentValue(settings, old(Snap()))
    {
      hide Spec.SetLatest, Spec.StartString, Spec.StorePrimitive, Spec.StoreImplicit;
      var key := PropertyName(GetCurrentKey());
      if key in TopFrame().voidFields {
        currentValue := "";
        SetLatestField(Null);
        return;
      }
      if currentValue != "" {
        StartString();
        StorePrimitive();
        StoreImplicit();
        currentValue := "";
      }
    }

    method StartString()
      requires Valid()
      modifies this
      ensures Valid() && Snap() == Spec.StartString(old(Snap()))
    {
      hide Spec.SetLatest;
      if !Truthy(LatestField()) {
        SetLatestField(Str(""));
      }
    }

    method StorePrimitive()
      requires Valid()
      modifies this
      ensures Valid() && Snap() == Spec.StorePrimitive(settings, old(Snap()))
    {
      hide Spec.SetLatest, Spec.EmitPrimitive;
      if PropertyName(GetCurrentKey()) !in dataInsertionLocks && !Spec.TypeofObject(LatestField()) {
        SetLatestField(Str(Spec.JsText(LatestField()) + currentValue));
        EmitContentEventsForPrimitive(Spec.ContentTag);
      }
    }

    method StoreImplicit()
      requires Valid()
      modifies this
      ensures Valid() && Snap() == Spec.StoreImplicit(settings, old(Snap()))
    {
      hide Spec.AppendToLastPart;
      var key := PropertyName(GetCurrentKey());
      if key !in dataInsertionLocks && key in TopFrame().implicitArrays {
        AppendToLastPart();
      }
    }

    /** `latest[key][latest[key].length - 1] += currentValue`, then the
      * content events of that part. */
    method AppendToLastPart()
      requires Valid()
      modifies this
      ensures Valid() && Snap() == Spec.AppendToLastPart(settings, old(Snap()))
    {
      hide Spec.SetLatest, Spec.EmitImplicit;
      var latest := LatestField();
      if latest.Obj? {
        if "length" in latest.fields {
          return;
        }
        SetLatestField(Obj(latest.fields[Spec.NaNKey := Str(Spec.JsText(Spec.Get(latest, Name(Spec.NaNKey))) + currentValue)]));
        EmitContentEventsForImplicitArray(Spec.ContentTag);
        return;
      }
      if !latest.Arr? {
        return;
      }
      var xs := latest.elems;
      if xs != [] {
        var last := |xs| - 1;
        SetLatestField(Arr(xs[last := Str(Spec.JsText(xs[last]) + currentValue)]));
      }
      EmitContentEventsForImplicitArray(Spec.ContentTag);
    }

    method SetDataInsertionType(t: InsertionType)
      requires Valid()
      modifies this
      ensures Valid() && Snap() == Spec.SetDataInsertionType(settings, old(Snap()), t)
    {
      hide Spec.SetLatest, Spec.WithTop;
      var key := PropertyName(GetCurrentKey());
      if key in dataInsertionTypes {
        match dataInsertionTypes[key] {
          case KeepLast =>
            SetLatestField(Str(""));
            var top := TopFrame();
            SetTopFrame(top.(instructions := Spec.WithoutKey(top.instructions, top.currentKey)));
          case KeepFirst =>
            dataInsertionLocks := dataInsertionLocks + {key};
          case _ =>
        }
        return;
      }
      dataInsertionTypes := dataInsertionTypes[key := t];
    }

    method NextKey()
      requires Valid()
      modifies this
      ensures Valid() && Snap() == Spec.NextKey(settings, old(Snap()))
    {
      hide Spec.WithTop;
      var top := TopFrame();
      var content := Spec.ContentOf(currentDelimiter);
      if top.container.Arr? {
        if content != "" {
          var newIndex := Decimal.ParseIntLenient(content);
          if newIndex.Some? {
            SetTopFrame(top.(currentKey := Index(newIndex.value), minArrayIndex := Spec.Max(top.minArrayIndex, newIndex.value + 1)));
            return;
          }
        }
        SetTopFrame(top.(currentKey := Index(top.minArrayIndex), minArrayIndex := top.minArrayIndex + 1));
      } else if content != "" {
        var container := top.container;
        if container.Obj? && settings.defaultFieldName in container.fields && container.fields[settings.defaultFieldName] == Str("") {
          container := Spec.Put(container, Name(settings.defaultFieldName), Null);
        }
        var seen := top.alreadySeen;
        if container.Obj? && content in container.fields {
          seen := seen + {content};
        }
        SetTopFrame(top.(container := container, currentKey := Name(content), alreadySeen := seen));
      }
    }

    /** `createNewObject()` and `createNewArray()`. */
    method CreateNew(isArray: bool)
      requires Valid()
      modifies this
      ensures Valid() && Snap() == Spec.CreateNew(settings, old(Snap()), isArray)
    {
      hide Spec.SetLatest;
      currentValue := "";
      var empty := if isArray then Arr([]) else Obj(map[]);
      SetLatestField(empty);
      stack := stack + [Spec.EmptyFrame(empty, if isArray then Index(-1) else Name(settings.defaultFieldName))];
    }

    /** Registers the complete instruction token (unless its key is a repeated
      * KEEP_FIRST key) and emits its content events. */
    method RegisterInstructionIfAllowed(at: Spec.Indices)
      requires Valid()
      modifies this
      ensures Valid() && Snap() == Spec.CompleteInstruction(settings, old(Snap()), at)
    {
      hide Spec.WithTop, Spec.EmitPrimitive, Spec.EmitImplicit;
      var key := PropertyName(GetCurrentKey());
      if key !in TopFrame().alreadySeen || !(key in dataInsertionTypes && dataInsertionTypes[key] == KeepFirst) {
        var top := TopFrame();
        var ins := Spec.Registered(top.currentKey, Spec.ContentOf(currentDelimiter), at.index, Spec.ArgsOf(currentDelimiter), at.partIndex);
        SetTopFrame(top.(instructions := top.instructions + [ins]));
        if !Spec.TypeofObject(LatestField()) {
          EmitContentEventsForPrimitive(Spec.ContentTag);
        }
        if key in TopFrame().implicitArrays {
          EmitContentEventsForImplicitArray(Spec.ContentTag);
        }
      }
    }

    method Close()
      requires Valid()
      modifies this
      ensures Valid() && Snap() == Spec.Close(settings, old(Snap()))
    {
      hide Spec.EmitEnd, Spec.EmitEndData, Spec.StoreCurrentValue;
      EmitEndEventsIfRequired();
      EmitEndDataEventsIfRequired();
      StoreCurrentValue();
    }

    method Reset()
      requires Valid()
      modifies this
      ensures Valid() && Snap() == Spec.Reset(settings, old(Snap()))
    {
      if rootListed {
        finished := finished + [GetResult()];
      }
      rootListed := false;
      dataInsertionTypes := map[settings.defaultFieldName := Default];
      dataInsertionLocks := {};
      stack := [Spec.RootFrame(settings)];
    }

    /** `close(); reset(); multiAslanResults.push(stack[0].innerResult)`. */
    method NextDocument()
      requires Valid()
      modifies this
      ensures Valid() && Snap() == Spec.NextDocument(settings, old(Snap()))
    {
      hide Spec.Close, Spec.Reset;
      Close();
      Reset();
      rootListed := true;
    }

    // -------------------------------------------------------------------
    // Handlers.
    // -------------------------------------------------------------------

    method HandleLocked(c: char)
      requires Valid()
      modifies this
      ensures Valid() && Snap() == Spec.HandleLocked(old(Snap()), c)
    {
      if c == '[' {
        state := MaybeDelimiter;
        delimiterBuffer := [c];
      }
    }

    method HandleGoDelimiter(c: char)
      requires Valid()
      modifies this
      ensures Valid() && Snap() == Spec.HandleGoDelimiter(settings, old(Snap()), c)
    {
      hide Spec.ExitIntoData, Spec.EndGoDelimiter;
      if c == ']' {
        EndGoDelimiter();
        return;
      }
      ExitDelimiterIntoData(c);
    }

    method EndGoDelimiter()
      requires Valid()
      modifies this
      ensures Valid() && Snap() == Spec.EndGoDelimiter(settings, old(Snap()))
    {
      hide Spec.NextDocument;
      var stopped := didStop;
      state := GoState;
      delimiterBuffer := "";
      currentValue := "";
      parsingLocked := false;
      ghost var p1 := Snap();
      assert p1 == old(Snap()).(state := GoState, delimiterBuffer := "", currentValue := "", parsingLocked := false);
      if settings.strictStart && !stopped {
        NextDocument();
      }
      ghost var p2 := Snap();
      assert p2 == if settings.strictStart && !stopped then Spec.NextDocument(settings, p1) else p1;
      didStop := false;
    }

    method HandleStopDelimiter(c: char)
      requires Valid()
      modifies this
      ensures Valid() && Snap() == Spec.HandleStopDelimiter(settings, old(Snap()), c)
    {
      hide Spec.ExitIntoData, Spec.EndStopDelimiter;
      if c == ']' {
        EndStopDelimiter();
        return;
      }
      ExitDelimiterIntoData(c);
    }

    method EndStopDelimiter()
      requires Valid()
      modifies this
      ensures Valid() && Snap() == Spec.EndStopDelimiter(settings, old(Snap()))
    {
      hide Spec.EndDocument;
      state := StopState;
      delimiterBuffer := "";
      currentValue := "";
      if settings.strictEnd {
        EndDocument();
      }
    }

    method EndDocument()
      requires Valid()
      modifies this
      ensures Valid() && Snap() == Spec.EndDocument(settings, old(Snap()))
    {
      hide Spec.NextDocument;
      if settings.strictStart {
        parsingLocked := true;
      }
      NextDocument();
      state := Start;
      didStop := true;
    }

    method HandleStart(c: char)
      requires Valid()
      modifies this
      ensures Valid() && Snap() == Spec.HandleStart(old(Snap()), c)
    {
      if c == '[' {
        state := MaybeDelimiter;
        delimiterBuffer := delimiterBuffer + [c];
      } else {
        state := DataState;
        currentValue := currentValue + [c];
      }
    }

    method HandleMaybeDelimiter(c: char)
      requires Valid()
      modifies this
      ensures Valid() && Snap() == Spec.HandleMaybeDelimiter(settings, old(Snap()), c)
    {
      if |delimiterBuffer| > |delimiterOpenSubstring| {
        state := DataState;
        currentValue := currentValue + [c];
        return;
      }
      if |delimiterBuffer| < |delimiterOpenSubstring| && c == delimiterOpenSubstring[|delimiterBuffer|] {
        delimiterBuffer := delimiterBuffer + [c];
        if delimiterBuffer == delimiterOpenSubstring {
          state := Delimiter;
        }
        return;
      }
      state := DataState;
      currentValue := currentValue + [c];
    }

    method HandleDelimiter(c: char)
      requires Valid()
      modifies this, recentDelimiters
      ensures Valid() && Snap() == Spec.HandleDelimiter(settings, old(Snap()), c)
    {
      if parsingLocked && c != 'g' && !settings.strictStart {
        state := Locked;
        return;
      }
      currentDelimiter := Some(Spec.DelimiterData(None, None, []));
      match KindOf(c) {
        case Some(k) =>
          state := DelimiterStateFor(k);
          currentDelimiter := Some(Spec.DelimiterData(Some(k), None, []));
          delimiterBuffer := delimiterBuffer + [c];
          recentDelimiters.Add(k);
        case None =>
          if IsAlnum(c) {
            state := ReservedDelimiter;
            delimiterBuffer := delimiterBuffer + [c];
            return;
          }
          state := DataState;
          currentValue := currentValue + [c];
      }
    }

    method HandleReservedDelimiter(c: char)
      requires Valid()
      modifies this
      ensures Valid() && Snap() == Spec.HandleReservedDelimiter(old(Snap()), c)
    {
      hide Spec.ExitIntoData;
      if parsingLocked {
        state := Locked;
        return;
      }
      if c != ']' {
        ExitDelimiterIntoData(c);
        return;
      }
      delimiterBuffer := "";
      state := DataState;
      currentValue := "";
    }

    /** `handleObjectDelimiter` (`isArray` false) and `handleArrayDelimiter`. */
    method HandleContainerDelimiter(c: char, isArray: bool)
      requires Valid()
      modifies this
      ensures Valid() && Snap() == Spec.HandleContainerDelimiter(settings, old(Snap()), c, isArray)
    {
      hide Spec.ExitIntoData, Spec.EndContainerDelimiter;
      if parsingLocked {
        state := Locked;
        return;
      }
      if Spec.EscapeActive(currentEscapeDelimiter) {
        ExitDelimiterIntoData(c);
        return;
      }
      if c == ']' {
        EndContainerDelimiter(isArray);
        return;
      }
      ExitDelimiterIntoData(c);
    }

    method EndContainerDelimiter(isArray: bool)
      requires Valid()
      modifies this
      ensures Valid() && Snap() == Spec.EndContainerDelimiter(settings, old(Snap()), isArray)
    {
      hide Spec.ContainerActionOf, Spec.ApplyContainerAction;
      var action := ContainerAction();
      state := if isArray then ArrayState else ObjectState;
      delimiterBuffer := "";
      ApplyContainerAction(action, isArray);
    }

    /** The open-or-close decision on the current state. */
    method ContainerAction() returns (action: ContainerAction)
      requires Valid()
      ensures action == Spec.ContainerActionOf(settings, Snap())
      ensures action.Close? ==> |stack| > 1
    {
      var latest := LatestField();
      var seen := PropertyName(GetCurrentKey()) in TopFrame().alreadySeen;
      var second := Get2ndMostRecentMaterialDelimiter();
      action := ContainerDecision(ObjectSafe(settings.collapseObjectStartWhitespace, latest), Spec.TypeofObject(latest),
                                  second == Some(Data), seen, |stack|);
    }

    method ApplyContainerAction(action: ContainerAction, isArray: bool)
      requires Valid() && (action.Close? ==> |stack| > 1)
      modifies this
      ensures Valid() && Snap() == Spec.ApplyContainerAction(settings, old(Snap()), action, isArray)
    {
      hide Spec.WithTop, Spec.CreateNew, Spec.CloseFrame;
      match action {
        case Open =>
          CreateNew(isArray);
        case ClearSeenAndOpen =>
          var top := TopFrame();
          SetTopFrame(top.(alreadySeen := top.alreadySeen - {PropertyName(top.currentKey)}));
          CreateNew(isArray);
        case Close =>
          CloseFrame();
        case KeepRoot =>
      }
    }

    method CloseFrame()
      requires Valid() && |stack| > 1
      modifies this
      ensures Valid() && Snap() == Spec.CloseFrame(settings, old(Snap()))
    {
      hide Spec.EmitEnd, Spec.EmitEndData;
      EmitEndEventsIfRequired();
      EmitEndDataEventsIfRequired();
      stack := Spec.PopStack(stack);
    }

    method HandleInstructionDelimiter(c: char)
      requires Valid()
      modifies this
      ensures Valid() && Snap() == Spec.HandleInstructionDelimiter(old(Snap()), c)
    {
      hide Spec.ExitIntoData;
      if parsingLocked {
        state := Locked;
        return;
      }
      if Spec.EscapeActive(currentEscapeDelimiter) || c == ']' {
        ExitDelimiterIntoData(c);
        return;
      }
      if c == '_' {
        state := InstructionDelimiterName;
        delimiterBuffer := delimiterBuffer + [c];
        currentDelimiter := Some(Spec.DelimOf(currentDelimiter).(content := Some("")));
        currentValue := "";
        return;
      }
      ExitDelimiterIntoData(c);
    }

    method HandleInstructionDelimiterName(c: char)
      requires Valid()
      modifies this
      ensures Valid() && Snap() == Spec.HandleInstructionDelimiterName(settings, old(Snap()), c)
    {
      hide Spec.ExitIntoData, Spec.EndInstructionName;
      var content := Spec.ContentOf(currentDelimiter);
      if parsingLocked {
        state := Locked;
        return;
      }
      if content != "" && c == ':' {
        if EndsWithUnderscore(content) {
          ExitDelimiterIntoData(c);
          return;
        }
        state := InstructionDelimiterArgs;
        currentDelimiter := Some(Spec.DelimOf(currentDelimiter).(args := [""]));
        currentValue := "";
        delimiterBuffer := delimiterBuffer + [c];
        return;
      }
      if c == '_' && content == "" {
        ExitDelimiterIntoData(c);
        return;
      }
      if c == ']' {
        if EndsWithUnderscore(content) {
          ExitDelimiterIntoData(c);
          return;
        }
        EndInstructionName();
        return;
      }
      if !IsNameChar(c) {
        ExitDelimiterIntoData(c);
        return;
      }
      currentDelimiter := Some(Spec.DelimOf(currentDelimiter).(content := Some(content + [c])));
      delimiterBuffer := delimiterBuffer + [c];
    }

    method EndInstructionName()
      requires Valid()
      modifies this
      ensures Valid() && Snap() == Spec.EndInstructionName(settings, old(Snap()))
    {
      hide Spec.CompleteInstruction;
      var at := Spec.InstructionIndices(LatestField());
      if at.None? {
        return;
      }
      state := DataState;
      ghost var p1 := Snap();
      assert p1 == old(Snap()).(state := DataState);
      RegisterInstructionIfAllowed(at.value);
      ghost var p2 := Snap();
      assert p2 == Spec.CompleteInstruction(settings, p1, at.value);
      delimiterBuffer := "";
      currentValue := "";
    }

    method HandleInstructionDelimiterArgs(c: char)
      requires Valid()
      modifies this
      ensures Valid() && Snap() == Spec.HandleInstructionDelimiterArgs(settings, old(Snap()), c)
    {
      hide Spec.CompleteInstruction, Spec.WithArgs;
      if parsingLocked {
        state := Locked;
        return;
      }
      if c == ']' {
        var at := Spec.InstructionIndices(LatestField());
        if at.None? {
          return;
        }
        state := DataState;
        delimiterBuffer := "";
        currentValue := "";
        RegisterInstructionIfAllowed(at.value);
        return;
      }
      ExtendArgs(c);
    }

    /** `:` starts a new argument; any other character extends the last one. */
    method ExtendArgs(c: char)
      requires Valid()
      modifies this
      ensures Valid()
      ensures c == ':' ==> Snap() == Spec.WithArgs(old(Snap()).(delimiterBuffer := old(delimiterBuffer) + [c]), Spec.ArgsOf(old(currentDelimiter)) + [""])
      ensures c != ':' ==> Snap() == Spec.WithArgs(old(Snap()), Spec.ExtendLastArg(Spec.ArgsOf(old(currentDelimiter)), c)).(delimiterBuffer := old(delimiterBuffer) + [c])
    {
      var d := Spec.DelimOf(currentDelimiter);
      delimiterBuffer := delimiterBuffer + [c];
      if c == ':' {
        currentDelimiter := Some(d.(args := d.args + [""]));
      } else {
        currentDelimiter := Some(d.(args := Spec.ExtendLastArg(d.args, c)));
      }
    }

    method HandleDataDelimiter(c: char)
      requires Valid()
      modifies this
      ensures Valid() && Snap() == Spec.HandleDataDelimiter(settings, old(Snap()), c)
    {
      hide Spec.ExitIntoData, Spec.NextElement;
      if parsingLocked {
        state := Locked;
        return;
      }
      if Spec.EscapeActive(currentEscapeDelimiter) {
        ExitDelimiterIntoData(c);
        return;
      }
      if c == ']' {
        if TopFrame().container.Arr? {
          NextElement();
          return;
        }
        ExitDelimiterIntoData(c);
        return;
      }
      if c == '_' {
        state := DataDelimiterName;
        delimiterBuffer := delimiterBuffer + [c];
        currentDelimiter := Some(Spec.DelimOf(currentDelimiter).(content := Some("")));
        currentValue := "";
        return;
      }
      ExitDelimiterIntoData(c);
    }

    method NextElement()
      requires Valid()
      modifies this
      ensures Valid() && Snap() == Spec.NextElement(settings, old(Snap()))
    {
      hide Spec.EmitEnd, Spec.EmitEndData, Spec.NextKey;
      state := DataState;
      delimiterBuffer := "";
      currentValue := "";
      ghost var p1 := Snap();
      assert p1 == old(Snap()).(state := DataState, delimiterBuffer := "", currentValue := "");
      EmitEndEventsIfRequired();
      ghost var p2 := Snap();
      assert p2 == Spec.EmitEnd(settings, p1);
      EmitEndDataEventsIfRequired();
      ghost var p3 := Snap();
      assert p3 == Spec.EmitEndData(settings, p2);
      NextKey();
    }

    method StartDataArgs(c: char)
      requires Valid()
      modifies this
      ensures Valid() && Snap() == Spec.StartDataArgs(settings, old(Snap()), c)
    {
      hide Spec.EmitEnd, Spec.EmitEndData, Spec.NextKey;
      state := DataDelimiterArgs;
      currentDelimiter := Some(Spec.DelimOf(currentDelimiter).(args := [""]));
      currentValue := "";
      delimiterBuffer := delimiterBuffer + [c];
      ghost var p1 := Snap();
      assert p1 == Spec.WithArgs(old(Snap()).(state := DataDelimiterArgs, currentValue := "", delimiterBuffer := old(delimiterBuffer) + [c]), [""]);
      EmitEndEventsIfRequired();
      ghost var p2 := Snap();
      assert p2 == Spec.EmitEnd(settings, p1);
      EmitEndDataEventsIfRequired();
      ghost var p3 := Snap();
      assert p3 == Spec.EmitEndData(settings, p2);
      NextKey();
    }

    method EndDataName()
      requires Valid()
      modifies this
      ensures Valid() && Snap() == Spec.EndDataName(settings, old(Snap()))
    {
      hide Spec.EmitEnd, Spec.EmitEndData, Spec.SetDataInsertionType, Spec.NextKey;
      state := DataState;
      ghost var p1 := Snap();
      assert p1 == old(Snap()).(state := DataState);
      EmitEndEventsIfRequired();
      ghost var p2 := Snap();
      assert p2 == Spec.EmitEnd(settings, p1);
      EmitEndDataEventsIfRequired();
      ghost var p3 := Snap();
      assert p3 == Spec.EmitEndData(settings, p2);
      NextKey();
      ghost var p4 := Snap();
      assert p4 == Spec.NextKey(settings, p3);
      delimiterBuffer := "";
      currentValue := "";
      SetDataInsertionType(Default);
    }

    method HandleDataDelimiterName(c: char)
      requires Valid()
      modifies this
      ensures Valid() && Snap() == Spec.HandleDataDelimiterName(settings, old(Snap()), c)
    {
      hide Spec.ExitIntoData, Spec.StartDataArgs, Spec.EndDataName;
      var content := Spec.ContentOf(currentDelimiter);
      if parsingLocked {
        state := Locked;
        return;
      }
      if content != "" && c == ':' {
        if EndsWithUnderscore(content) {
          ExitDelimiterIntoData(c);
          return;
        }
        StartDataArgs(c);
        return;
      }
      if c == '_' && content == "" {
        ExitDelimiterIntoData(c);
        return;
      }
      if c == ']' {
        if EndsWithUnderscore(content) {
          ExitDelimiterIntoData(c);
          return;
        }
        EndDataName();
        return;
      }
      if !IsNameChar(c) {
        ExitDelimiterIntoData(c);
        return;
      }
      currentDelimiter := Some(Spec.DelimOf(currentDelimiter).(content := Some(content + [c])));
      delimiterBuffer := delimiterBuffer + [c];
    }

    method HandleDataDelimiterArgs(c: char)
      requires Valid()
      modifies this
      ensures Valid() && Snap() == Spec.HandleDataDelimiterArgs(settings, old(Snap()), c)
    {
      hide Spec.WithArgs, Spec.EndDataArgs;
      if parsingLocked {
        state := Locked;
        return;
      }
      if c == ']' {
        EndDataArgs();
        return;
      }
      ExtendArgs(c);
    }

    method EndDataArgs()
      requires Valid()
      modifies this
      ensures Valid() && Snap() == Spec.EndDataArgs(settings, old(Snap()))
    {
      hide Spec.EmitEnd, Spec.EmitEndData, Spec.SetDataInsertionType;
      state := DataState;
      delimiterBuffer := "";
      currentValue := "";
      var args := Spec.ArgsOf(currentDelimiter);
      SetDataInsertionType(InsertionFromArg(if args == [] then "" else args[0]));
      EmitEndEventsIfRequired();
      EmitEndDataEventsIfRequired();
    }

    method HandleVoidDelimiter(c: char)
      requires Valid()
      modifies this
      ensures Valid() && Snap() == Spec.HandleVoidDelimiter(old(Snap()), c)
    {
      hide Spec.WithTop, Spec.ExitIntoData;
      if parsingLocked {
        state := Locked;
        return;
      }
      if Spec.EscapeActive(currentEscapeDelimiter) {
        ExitDelimiterIntoData(c);
        return;
      }
      if c == ']' {
        state := DataState;
        delimiterBuffer := "";
        currentValue := "";
        var top := TopFrame();
        SetTopFrame(top.(voidFields := top.voidFields + {PropertyName(top.currentKey)}));
        return;
      }
      ExitDelimiterIntoData(c);
    }

    method HandleCommentDelimiter(c: char)
      requires Valid()
      modifies this
      ensures Valid() && Snap() == Spec.HandleCommentDelimiter(old(Snap()), c)
    {
      hide Spec.ExitIntoData;
      if parsingLocked {
        state := Locked;
        return;
      }
      if Spec.EscapeActive(currentEscapeDelimiter) {
        ExitDelimiterIntoData(c);
        return;
      }
      if c == ']' {
        state := CommentState;
        delimiterBuffer := "";
        currentValue := "";
        return;
      }
      ExitDelimiterIntoData(c);
    }

    method HandleEscapeDelimiter(c: char)
      requires Valid()
      modifies this
      ensures Valid() && Snap() == Spec.HandleEscapeDelimiter(old(Snap()), c)
    {
      hide Spec.ExitIntoData;
      if parsingLocked {
        state := Locked;
        return;
      }
      if c == ']' {
        ExitDelimiterIntoData(c);
        return;
      }
      if c == '_' {
        state := EscapeDelimiterName;
        delimiterBuffer := delimiterBuffer + [c];
        currentDelimiter := Some(Spec.DelimOf(currentDelimiter).(content := Some("")));
        currentValue := "";
        return;
      }
      ExitDelimiterIntoData(c);
    }

    method HandleEscapeDelimiterName(c: char)
      requires Valid()
      modifies this
      ensures Valid() && Snap() == Spec.HandleEscapeDelimiterName(settings, old(Snap()), c)
    {
      hide Spec.ExitIntoData, Spec.EndEscapeName;
      var content := Spec.ContentOf(currentDelimiter);
      if parsingLocked {
        state := Locked;
        return;
      }
      if c == '_' && content == "" {
        ExitDelimiterIntoData(c);
        return;
      }
      if c == ']' {
        if EndsWithUnderscore(content) {
          ExitDelimiterIntoData(c);
          return;
        }
        EndEscapeName(content);
        return;
      }
      if !IsNameChar(c) {
        ExitDelimiterIntoData(c);
        return;
      }
      currentDelimiter := Some(Spec.DelimOf(currentDelimiter).(content := Some(content + [c])));
      delimiterBuffer := delimiterBuffer + [c];
    }

    method EndEscapeName(content: string)
      requires Valid()
      modifies this
      ensures Valid() && Snap() == Spec.EndEscapeName(settings, old(Snap()), content)
    {
      hide Spec.ExitIntoData, Spec.StoreCurrentValue;
      state := EscapeState;
      delimiterBuffer := "";
      currentValue := "";
      if !Spec.EscapeActive(currentEscapeDelimiter) {
        currentEscapeDelimiter := Some(content);
      } else if currentEscapeDelimiter.value != content {
        currentValue := "[" + settings.prefix + "e_" + content;
        StoreCurrentValue();
        ExitDelimiterIntoData(']');
      } else {
        currentEscapeDelimiter := None;
        state := DataState;
        delimiterBuffer := "";
        currentValue := "";
      }
    }

    method HandlePartDelimiter(c: char)
      requires Valid()
      modifies this
      ensures Valid() && Snap() == Spec.HandlePartDelimiter(settings, old(Snap()), c)
    {
      hide Spec.ExitIntoData, Spec.NextKey, Spec.AddPart;
      if parsingLocked {
        state := Locked;
        return;
      }
      if Spec.EscapeActive(currentEscapeDelimiter) {
        ExitDelimiterIntoData(c);
        return;
      }
      if c == ']' {
        AddPart();
        state := DataState;
        delimiterBuffer := "";
        currentValue := "";
        NextKey();
        return;
      }
      ExitDelimiterIntoData(c);
    }

    method AddPart()
      requires Valid()
      modifies this
      ensures Valid() && Snap() == Spec.AddPart(settings, old(Snap()))
    {
      hide Spec.SetLatest, Spec.WithTop, Spec.EmitEnd;
      var key := PropertyName(GetCurrentKey());
      var v := LatestField();
      if key in dataInsertionLocks {
        return;
      }
      if !Truthy(v) {
        var top := TopFrame();
        SetTopFrame(top.(implicitArrays := top.implicitArrays + {key}));
        SetLatestField(Arr([Str("")]));
      } else if v.Str? {
        var top := TopFrame();
        SetTopFrame(top.(implicitArrays := top.implicitArrays + {key}));
        SetLatestField(Arr([v, Str("")]));
      } else {
        EmitEndEventsIfRequired();
        if v.Arr? {
          SetLatestField(Arr(v.elems + [Str("")]));
        }
      }
    }

    method HandleGo(c: char)
      requires Valid()
      modifies this
      ensures Valid() && Snap() == Spec.HandleGo(old(Snap()), c)
    {
      hide Spec.ExitIntoData;
      if c == '[' {
        state := MaybeDelimiter;
        delimiterBuffer := delimiterBuffer + [c];
        return;
      }
      ExitDelimiterIntoData(c);
    }

    /** `handleStop`, `handleObject` and `handleArray`. */
    method HandleCollecting(c: char)
      requires Valid()
      modifies this
      ensures Valid() && Snap() == Spec.HandleCollecting(old(Snap()), c)
    {
      if parsingLocked {
        state := Locked;
        return;
      }
      if c == '[' {
        state := MaybeDelimiter;
        delimiterBuffer := delimiterBuffer + [c];
        return;
      }
      currentValue := currentValue + [c];
    }

    method HandleComment(c: char)
      requires Valid()
      modifies this
      ensures Valid() && Snap() == Spec.HandleComment(old(Snap()), c)
    {
      if parsingLocked {
        state := Locked;
        return;
      }
      if c == '[' {
        state := MaybeDelimiter;
        delimiterBuffer := delimiterBuffer + [c];
      }
    }

    method HandleEscape(c: char)
      requires Valid()
      modifies this
      ensures Valid() && Snap() == Spec.HandleEscape(settings, old(Snap()), c)
    {
      hide Spec.StoreCurrentValue, Spec.EscapeChar;
      if parsingLocked {
        state := Locked;
        return;
      }
      EscapeChar(c);
      StoreCurrentValue();
      state := DataState;
      delimiterBuffer := "";
      currentValue := "";
    }

    method EscapeChar(c: char)
      requires Valid()
      modifies this
      ensures Valid() && Snap() == Spec.EscapeChar(old(Snap()), c)
    {
      if c == '[' {
        state := MaybeDelimiter;
        delimiterBuffer := delimiterBuffer + [c];
      }
      currentValue := currentValue + [c];
    }

    method HandleData(c: char)
      requires Valid()
      modifies this
      ensures Valid() && Snap() == Spec.HandleData(settings, old(Snap()), c)
    {
      hide Spec.StoreCurrentValue;
      if parsingLocked {
        state := Locked;
        return;
      }
      if c == '[' {
        state := MaybeDelimiter;
        delimiterBuffer := delimiterBuffer + [c];
        return;
      }
      currentValue := currentValue + [c];
      StoreCurrentValue();
    }

    method HandleNextChar(c: char)
      requires Valid()
      modifies this, recentDelimiters
      ensures Valid() && Snap() == Spec.Step(settings, old(Snap()), c)
    {
      hide Spec.HandleLocked, Spec.HandleGoDelimiter, Spec.HandleStopDelimiter, Spec.HandleStart, Spec.HandleMaybeDelimiter, Spec.HandleDelimiter, Spec.HandleReservedDelimiter, Spec.HandleContainerDelimiter, Spec.HandleInstructionDelimiter, Spec.HandleInstructionDelimiterName, Spec.HandleInstructionDelimiterArgs, Spec.HandleDataDelimiter, Spec.HandleDataDelimiterName, Spec.HandleDataDelimiterArgs, Spec.HandleVoidDelimiter, Spec.HandleCommentDelimiter, Spec.HandleEscapeDelimiter, Spec.HandleEscapeDelimiterName, Spec.HandlePartDelimiter, Spec.HandleGo, Spec.HandleCollecting, Spec.HandleComment, Spec.HandleEscape, Spec.HandleData;
      match state {
        case GoDelimiter => HandleGoDelimiter(c);
        case StopDelimiter => HandleStopDelimiter(c);
        case GoState => HandleGo(c);
        case StopState => HandleCollecting(c);
        case Start => HandleStart(c);
        case MaybeDelimiter => HandleMaybeDelimiter(c);
        case Delimiter => HandleDelimiter(c);
        case ReservedDelimiter => HandleReservedDelimiter(c);
        case ObjectState => HandleCollecting(c);
        case ArrayState => HandleCollecting(c);
        case CommentState => HandleComment(c);
        case EscapeState => HandleEscape(c);
        case InstructionDelimiter => HandleInstructionDelimiter(c);
        case InstructionDelimiterName => HandleInstructionDelimiterName(c);
        case InstructionDelimiterArgs => HandleInstructionDelimiterArgs(c);
        case DataDelimiter => HandleDataDelimiter(c);
        case DataDelimiterName => HandleDataDelimiterName(c);
        case DataDelimiterArgs => HandleDataDelimiterArgs(c);
        case ObjectDelimiter => HandleContainerDelimiter(c, false);
        case ArrayDelimiter => HandleContainerDelimiter(c, true);
        case VoidDelimiter => HandleVoidDelimiter(c);
        case CommentDelimiter => HandleCommentDelimiter(c);
        case EscapeDelimiter => HandleEscapeDelimiter(c);
        case EscapeDelimiterName => HandleEscapeDelimiterName(c);
        case PartDelimiter => HandlePartDelimiter(c);
        case DataState => HandleData(c);
        case Locked => HandleLocked(c);
      }
    }

    method ParseNext(input: string)
      requires Valid()
      modifies this, recentDelimiters
      ensures Valid() && Snap() == Spec.Run(settings, old(Snap()), input)
    {
      hide Spec.Step;
      for i := 0 to |input|
        invariant Valid()
        invariant Snap() == Spec.Run(settings, old(Snap()), input[..i])
      {
        assert input[..i + 1][..i] == input[..i];
        HandleNextChar(input[i]);
      }
      assert input[..|input|] == input;
    }

    method Parse(input: string) returns (r: Spec.Output)
      requires Valid()
      modifies this, recentDelimiters
      ensures Valid() && Snap() == Spec.Parse(settings, old(Snap()), input)
      ensures r == Spec.OutputOf(settings, Snap())
    {
      hide Spec.Results, Spec.Close, Spec.Run;
      ParseNext(input);
      Close();
      if settings.multiAslanOutput {
        var results := GetResults();
        r := Spec.Multiple(results);
      } else {
        r := Spec.Single(GetResult());
      }
    }
  }
}
