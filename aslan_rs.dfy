// The Rust `ASLANParser` struct (rust/src/aslan_parser.rs): the decoder
// object whose fields change one character at a time. Every method is proved
// to change the whole state, `Snap()`, exactly as the function of the same
// name in AslanRsSpec does.
//
// Each method body starts by hiding the specification functions of the
// methods it calls: their contracts say all that is needed, and unfolding
// them as well only makes the proofs slower.
module AslanRs {
  import opened Wrappers
  import opened AslanCommon
  import Spec = AslanRsSpec
  import RecentItemsRs
  import Decimal

  /** `while arr.len() <= idx { arr.push(Value::Null) }; arr[idx] = v`, or an
    * insert into an object: the write shared by `set_value_at_key`,
    * `create_new_object`, `create_new_array` and `sync_stack_to_root`. */
  method WriteAt(container: Value, k: Key, v: Value) returns (r: Value)
    ensures r == Spec.Put(container, k, v)
  {
    match container {
      case Obj(m) =>
        r := Obj(m[PropertyName(k) := v]);
      case Arr(xs) =>
        var slot := Spec.ArraySlot(k);
        if slot.None? {
          return container;
        }
        var idx := slot.value;
        var arr := xs;
        while |arr| <= idx
          invariant |xs| <= |arr| <= Spec.Max(|xs|, idx + 1)
          invariant arr == xs + Spec.Nulls(|arr| - |xs|)
          decreases idx + 1 - |arr|
        {
          assert Spec.Nulls(|arr| + 1 - |xs|) == Spec.Nulls(|arr| - |xs|) + [Null];
          arr := arr + [Null];
        }
        if idx < |xs| {
          assert arr == xs;
        } else {
          assert arr == xs + Spec.Nulls(idx - |xs|) + [Null];
          assert arr[idx := v] == xs + Spec.Nulls(idx - |xs|) + [v];
        }
        r := Arr(arr[idx := v]);
      case _ =>
        r := container;
    }
  }

  /** The `for instruction in instructions` loop of the content-event
    * emitters, over the instructions filtered by key and part. */
  method ContentEventsFor(instrs: seq<Spec.Registered>, tag: Spec.Tag, key: string, part: nat, value: string, path: seq<string>, mai: nat)
    returns (emitted: seq<Spec.Event>)
    ensures emitted == Spec.ContentEvents(instrs, tag, key, part, value, path, mai)
  {
    emitted := [];
    for i := 0 to |instrs|
      invariant emitted == Spec.ContentEvents(instrs[..i], tag, key, part, value, path, mai)
    {
      assert instrs[..i + 1][..i] == instrs[..i];
      var ins := instrs[i];
      if ins.key == key && ins.partIndex == part {
        emitted := emitted + [Spec.ContentEvent(tag, value, part, key, path, ins.name, ins.args, ins.index, mai)];
      }
    }
    assert instrs[..|instrs|] == instrs;
  }

  /** `instructions_by_part`, built by the loop of
    * `emit_end_data_events_if_required`. */
  method GroupByPartIndex(instrs: seq<Spec.Registered>, key: string) returns (groups: map<nat, seq<Spec.InstructionInfo>>)
    ensures groups == Spec.GroupByPart(instrs, key)
  {
    groups := map[];
    for i := 0 to |instrs|
      invariant groups == Spec.GroupByPart(instrs[..i], key)
    {
      assert instrs[..i + 1][..i] == instrs[..i];
      var ins := instrs[i];
      if ins.key == key {
        var entry := if ins.partIndex in groups then groups[ins.partIndex] else [];
        groups := groups[ins.partIndex := entry + [Spec.InstructionInfo(ins.name, ins.args, ins.index)]];
      }
    }
    assert instrs[..|instrs|] == instrs;
  }

  class ASLANParser {
    const settings: Settings
    const delimiterOpenSubstring: string
    const recentDelimiters: RecentItemsRs.RecentItems<DelimiterType>
    var state: ParserState
    var stack: seq<Spec.Frame>
    var currentDelimiter: Option<Spec.DelimiterData>
    var currentValue: string
    var delimiterBuffer: string
    var currentEscapeDelimiter: Option<string>
    var parsingLocked: bool
    var multiAslanResults: seq<Value>
    var didStop: bool
    /** What the listeners have been handed. */
    var events: seq<Spec.Event>

    ghost predicate Valid()
      reads this, recentDelimiters
    {
      |stack| > 0 && recentDelimiters.Valid() && recentDelimiters.maxSize == Spec.RecentCapacity
      && delimiterOpenSubstring == OpenSubstring(settings)
    }

    ghost function Snap(): (r: Spec.Parser)
      reads this, recentDelimiters
    {
      Spec.Parser(state, stack, currentDelimiter, currentValue, delimiterBuffer, recentDelimiters.items,
                  currentEscapeDelimiter, parsingLocked, multiAslanResults, didStop, events)
    }

    /** `ASLANParser::with_settings(settings)`. */
    constructor (settings: Settings)
      ensures Valid() && this.settings == settings && fresh(recentDelimiters)
      ensures Snap() == Spec.Initial(settings)
    {
      this.settings := settings;
      delimiterOpenSubstring := "[" + settings.prefix;
      recentDelimiters := new RecentItemsRs.RecentItems<DelimiterType>.Default();
      state := if settings.strictStart then Locked else Start;
      stack := [Spec.RootFrame(settings)];
      currentDelimiter := None;
      currentValue := "";
      delimiterBuffer := "";
      currentEscapeDelimiter := None;
      parsingLocked := settings.strictStart;
      multiAslanResults := [Spec.RootFrame(settings).container];
      didStop := true;
      events := [];
    }

    // -------------------------------------------------------------------
    // Reading the state.
    // -------------------------------------------------------------------

    function TopFrame(): Spec.Frame
      reads this
      requires |stack| > 0
    {
      stack[|stack| - 1]
    }

    /** `get_current_key_string()`. */
    function GetCurrentKeyString(): string
      reads this
      requires |stack| > 0
    {
      PropertyName(TopFrame().currentKey)
    }

    /** `get_value_at_key(&current_key)`. */
    function ValueAtKey(): Option<Value>
      reads this
      requires |stack| > 0
    {
      Spec.Get(TopFrame().container, TopFrame().currentKey)
    }

    /** `get_result()`: the root frame's copy of the document. */
    function GetResult(): Value
      reads this
      requires |stack| > 0
    {
      stack[0].container
    }

    /** `get_results()`. */
    method GetResults() returns (r: seq<Value>)
      requires Valid()
      ensures r == Snap().results
    {
      r := multiAslanResults;
    }

    /** `get_2nd_most_recent_material_delimiter()`. */
    method Get2ndMostRecentMaterialDelimiter() returns (r: Option<DelimiterType>)
      requires Valid()
      ensures r == SecondMaterial(recentDelimiters.items)
    {
      r := recentDelimiters.GetNthMostRecentNotIn(2, {Comment, Escape});
    }

    /** `get_current_path()`. */
    method GetCurrentPath() returns (path: seq<string>)
      requires Valid()
      ensures path == Spec.PathOf(settings, stack)
    {
      path := [];
      for i := 0 to |stack|
        invariant path == Spec.PathOf(settings, stack[..i])
      {
        assert stack[..i + 1][..i] == stack[..i];
        match stack[i].currentKey {
          case Name(n) =>
            if n != settings.defaultFieldName {
              path := path + [n];
            }
          case Index(k) =>
            path := path + [Decimal.IntText(k)];
        }
      }
      assert stack[..|stack|] == stack;
    }

    // -------------------------------------------------------------------
    // Writing the state.
    // -------------------------------------------------------------------

    method SetTopFrame(f: Spec.Frame)
      requires Valid()
      modifies this
      ensures Valid() && Snap() == Spec.WithTop(old(Snap()), f)
    {
      stack := stack[..|stack| - 1] + [f];
    }

    /** `sync_stack_to_root()`: the reverse loop copying every frame into its
    * parent, then the root into the last document. */
    method SyncStackToRoot()
      requires Valid()
      modifies this
      ensures Valid() && Snap() == Spec.SyncStackToRoot(old(Snap()))
    {
      hide Spec.Put;
      var i := |stack| - 1;
      while i > 0
        invariant 0 <= i < |stack| && |stack| == |old(stack)|
        invariant Spec.SyncFrom(stack, i) == Spec.Synced(old(stack))
        invariant Valid() && Snap() == old(Snap()).(stack := stack)
      {
        var parent := stack[i - 1];
        var c := WriteAt(parent.container, parent.currentKey, stack[i].container);
        stack := stack[i - 1 := parent.(container := c)];
        i := i - 1;
      }
      if multiAslanResults != [] {
        multiAslanResults := multiAslanResults[|multiAslanResults| - 1 := stack[0].container];
      }
    }

    /** `set_value_at_key(&current_key, v)`. */
    method SetValueAtKey(v: Value)
      requires Valid()
      modifies this
      ensures Valid() && Snap() == Spec.SetValueAtKey(old(Snap()), v)
    {
      hide Spec.Put, Spec.SyncStackToRoot;
      var top := TopFrame();
      var c := WriteAt(top.container, top.currentKey, v);
      stack := stack[..|stack| - 1] + [top.(container := c)];
      SyncStackToRoot();
    }

    /** `append_to_array_at_key(&current_key, v)`. */
    method AppendToArrayAtKey(v: Value)
      requires Valid()
      modifies this
      ensures Valid() && Snap() == Spec.AppendToArrayAtKey(old(Snap()), v)
    {
      hide Spec.SyncStackToRoot;
      var top := TopFrame();
      stack := stack[..|stack| - 1] + [top.(container := Spec.PushAt(top.container, top.currentKey, v))];
      SyncStackToRoot();
    }

    method ExitDelimiterIntoData(c: char)
      requires Valid()
      modifies this
      ensures Valid() && Snap() == Spec.ExitIntoData(old(Snap()), c)
    {
      currentValue := currentValue + delimiterBuffer + [c];
      delimiterBuffer := "";
      currentDelimiter := None;
      state := DataState;
    }

    // -------------------------------------------------------------------
    // Events.
    // -------------------------------------------------------------------

    /** The loop shared by the two content-event emitters: one event per
      * instruction registered for the current key at `part`. */
    method EmitForPart(tag: Spec.Tag, part: nat, value: string)
      requires Valid()
      modifies this
      ensures Valid()
      ensures Snap() == old(Snap()).(events := old(events) + Spec.ContentEvents(TopFrame().instructions, tag, GetCurrentKeyString(), part, value,
                                                                                  Spec.PathOf(settings, stack), Spec.MultiAslanIndex(old(Snap()))))
    {
      hide Spec.ContentEvents, Spec.PathOf;
      var path := GetCurrentPath();
      var mai := if |multiAslanResults| == 0 then 0 else |multiAslanResults| - 1;
      var emitted := ContentEventsFor(TopFrame().instructions, tag, GetCurrentKeyString(), part, value, path, mai);
      events := events + emitted;
    }

    /** `emit_content_events_for_primitive_with_tag(tag)`. */
    method EmitContentEventsForPrimitiveWithTag(tag: Spec.Tag)
      requires Valid()
      modifies this
      ensures Valid() && Snap() == Spec.EmitPrimitive(settings, old(Snap()), tag)
    {
      if !Spec.EventsOn(settings, tag) {
        return;
      }
      EmitForPart(tag, 0, Spec.AsStr(ValueAtKey()));
    }

    /** `emit_content_events_for_implicit_array_with_tag(tag)`. */
    method EmitContentEventsForImplicitArrayWithTag(tag: Spec.Tag)
      requires Valid()
      modifies this
      ensures Valid() && Snap() == Spec.EmitImplicit(settings, old(Snap()), tag)
    {
      if !Spec.EventsOn(settings, tag) {
        return;
      }
      var arr := Spec.AsArr(ValueAtKey());
      var partIndex := if |arr| == 0 then 0 else |arr| - 1;
      var value := if arr == [] then "" else Spec.AsStr(Some(arr[|arr| - 1]));
      EmitForPart(tag, partIndex, value);
    }

    method EmitEndEventsIfRequired()
      requires Valid()
      modifies this
      ensures Valid() && Snap() == Spec.EmitEnd(settings, old(Snap()))
    {
      hide Spec.EmitPrimitive, Spec.EmitImplicit;
      if !settings.emitEnd {
        return;
      }
      if !Spec.HoldsContainer(ValueAtKey()) {
        EmitContentEventsForPrimitiveWithTag(Spec.EndTag);
      }
      if GetCurrentKeyString() in TopFrame().implicitArrays {
        EmitContentEventsForImplicitArrayWithTag(Spec.EndTag);
      }
    }

    method EmitEndDataEventsIfRequired()
      requires Valid()
      modifies this
      ensures Valid() && Snap() == Spec.EmitEndData(settings, old(Snap()))
    {
      hide Spec.EndDataEventOf;
      if !settings.emitEndData {
        return;
      }
      var e := EndDataEvent();
      if e.Some? {
        events := events + [e.value];
      }
    }

    /** The event `emit_end_data_events_if_required()` hands to the
      * listeners, if any. */
    method EndDataEvent() returns (e: Option<Spec.Event>)
      requires Valid()
      ensures e == Spec.EndDataEventOf(settings, Snap())
    {
      hide Spec.GroupByPart, Spec.PathOf;
      var key := GetCurrentKeyString();
      var value := ValueAtKey();
      var implicit := key in TopFrame().implicitArrays;
      var mai := if |multiAslanResults| == 0 then 0 else |multiAslanResults| - 1;
      if !Spec.HoldsContainer(value) && !implicit {
        var path := GetCurrentPath();
        var content := [Spec.ContentPart(Spec.AsStr(value), 0, Spec.KeyInfos(TopFrame().instructions, key))];
        return Some(Spec.EndDataEvent(content, key, path, mai));
      }
      if implicit {
        var groups := GroupByPartIndex(TopFrame().instructions, key);
        var content := Spec.Parts(Spec.AsArr(value), groups);
        var path := GetCurrentPath();
        return Some(Spec.EndDataEvent(content, key, path, mai));
      }
      return None;
    }

    // -------------------------------------------------------------------
    // Field updates.
    // -------------------------------------------------------------------

    /** `store_current_value()`. */
    method StoreCurrentValue()
      requires Valid()
      modifies this
      ensures Valid() && Snap() == Spec.StoreCurrentValue(settings, old(Snap()))
    {
      hide Spec.SetValueAtKey, Spec.StorePrimitive, Spec.StoreImplicit;
      if GetCurrentKeyString() in TopFrame().voidFields {
        currentValue := "";
        SetValueAtKey(Null);
        return;
      }
      if currentValue != "" {
        StorePrimitive();
        StoreImplicit();
        currentValue := "";
      }
    }

    method StorePrimitive()
      requires Valid()
      modifies this
      ensures Valid() && Snap() == Spec.StorePrimitive(settings, old(Snap()))
    {
      hide Spec.SetValueAtKey, Spec.EmitPrimitive;
      if GetCurrentKeyString() !in TopFrame().locks && !Spec.HoldsContainer(ValueAtKey()) {
        SetValueAtKey(Str(Spec.AsStr(ValueAtKey()) + currentValue));
        EmitContentEventsForPrimitiveWithTag(Spec.ContentTag);
      }
    }

    method StoreImplicit()
      requires Valid()
      modifies this
      ensures Valid() && Snap() == Spec.StoreImplicit(settings, old(Snap()))
    {
      hide Spec.EmitImplicit, Spec.AppendToLastPart;
      var key := GetCurrentKeyString();
      if key !in TopFrame().locks && key in TopFrame().implicitArrays {
        AppendToLastPart();
        EmitContentEventsForImplicitArrayWithTag(Spec.ContentTag);
      }
    }

    /** The last element of the implicit array gets the pending text. */
    method AppendToLastPart()
      requires Valid()
      modifies this
      ensures Valid() && Snap() == Spec.AppendToLastPart(old(Snap()))
    {
      hide Spec.SetValueAtKey;
      var value := ValueAtKey();
      if value.Some? && value.value.Arr? && value.value.elems != [] {
        var xs := value.value.elems;
        var last := |xs| - 1;
        SetValueAtKey(Arr(xs[last := Str(Spec.AsStr(Some(xs[last])) + currentValue)]));
      }
    }

    /** `set_data_insertion_type(type)`. */
    method SetDataInsertionType(t: InsertionType)
      requires Valid()
      modifies this
      ensures Valid() && Snap() == Spec.SetDataInsertionType(old(Snap()), t)
    {
      hide Spec.WithTop;
      var key := GetCurrentKeyString();
      var top := TopFrame();
      if key in top.insertionTypes {
        match top.insertionTypes[key] {
          case KeepLast =>
            var c := top.container;
            if c.Obj? {
              c := Obj(c.fields[key := Str("")]);
            }
            SetTopFrame(top.(container := c, instructions := Spec.WithoutKey(top.instructions, key)));
          case KeepFirst =>
            SetTopFrame(top.(locks := top.locks + {key}));
          case _ =>
        }
        return;
      }
      SetTopFrame(top.(insertionTypes := top.insertionTypes[key := t]));
    }

    /** `next_key()`. */
    method NextKey()
      requires Valid()
      modifies this
      ensures Valid() && Snap() == Spec.NextKey(settings, old(Snap()))
    {
      hide Spec.WithTop;
      var top := TopFrame();
      var content := Spec.DelimOf(currentDelimiter).content;
      if top.container.Arr? {
        if content.Some? {
          var newIndex := Decimal.ParseI64Strict(content.value);
          if newIndex.Some? {
            SetTopFrame(top.(currentKey := Index(newIndex.value), minArrayIndex := Spec.Max(top.minArrayIndex, newIndex.value + 1)));
            return;
          }
        }
        SetTopFrame(top.(currentKey := Index(top.minArrayIndex), minArrayIndex := top.minArrayIndex + 1));
      } else if content.Some? {
        var name := content.value;
        var container := top.container;
        if container.Obj? && settings.defaultFieldName in container.fields && container.fields[settings.defaultFieldName] == Str("") {
          container := Obj(container.fields[settings.defaultFieldName := Null]);
        }
        var seen := top.alreadySeen;
        if container.Obj? && name in container.fields {
          seen := seen + {name};
        }
        SetTopFrame(top.(container := container, currentKey := Name(name), alreadySeen := seen));
      }
    }

    /** `create_new_object()` and `create_new_array()`. */
    method CreateNew(isArray: bool)
      requires Valid()
      modifies this
      ensures Valid() && Snap() == Spec.CreateNew(settings, old(Snap()), isArray)
    {
      hide Spec.Put;
      currentValue := "";
      var empty := if isArray then Arr([]) else Obj(map[]);
      var top := TopFrame();
      var c := WriteAt(top.container, top.currentKey, empty);
      stack := stack[..|stack| - 1] + [top.(container := c)];
      var inner := ValueAtKey();
      stack := stack + [Spec.EmptyFrame(if inner.Some? then inner.value else empty, if isArray then Index(-1) else Name(settings.defaultFieldName))];
    }

    /** Registers the complete instruction token (unless its key is a repeated
      * KEEP_FIRST key of this frame) and emits its content events. */
    method RegisterInstructionIfAllowed(at: Spec.Indices)
      requires Valid()
      modifies this
      ensures Valid() && Snap() == Spec.CompleteInstruction(settings, old(Snap()), at)
    {
      hide Spec.WithTop, Spec.EmitPrimitive, Spec.EmitImplicit;
      var key := GetCurrentKeyString();
      var top := TopFrame();
      if key !in top.alreadySeen || !(key in top.insertionTypes && top.insertionTypes[key] == KeepFirst) {
        var ins := Spec.Registered(key, Spec.ContentOf(currentDelimiter), at.index, Spec.ArgsOf(currentDelimiter), at.partIndex);
        SetTopFrame(top.(instructions := top.instructions + [ins]));
        if !Spec.HoldsContainer(ValueAtKey()) {
          EmitContentEventsForPrimitiveWithTag(Spec.ContentTag);
        }
        if key in TopFrame().implicitArrays {
          EmitContentEventsForImplicitArrayWithTag(Spec.ContentTag);
        }
      }
    }

    /** `close()`. */
    method Close()
      requires Valid()
      modifies this
      ensures Valid() && Snap() == Spec.Close(settings, old(Snap()))
    {
      hide Spec.SyncStackToRoot, Spec.EmitEnd, Spec.EmitEndData, Spec.StoreCurrentValue;
      EmitEndEventsIfRequired();
      EmitEndDataEventsIfRequired();
      StoreCurrentValue();
      SyncStackToRoot();
    }

    /** `reset()`. */
    method Reset()
      requires Valid()
      modifies this
      ensures Valid() && Snap() == Spec.Reset(settings, old(Snap()))
      ensures stack == [Spec.RootFrame(settings)]
    {
      stack := [Spec.RootFrame(settings)];
    }

    /** `close(); reset(); multi_aslan_results.push(stack[0].inner_result)`. */
    method NextDocument()
      requires Valid()
      modifies this
      ensures Valid() && Snap() == Spec.NextDocument(settings, old(Snap()))
    {
      hide Spec.Close, Spec.Reset;
      Close();
      Reset();
      multiAslanResults := multiAslanResults + [GetResult()];
    }

    // -------------------------------------------------------------------
    // Handlers.
    // -------------------------------------------------------------------

    method HandleLocked(c: char)
      requires Valid()
      modifies this
      ensures Valid() && Snap() == Spec.HandleLocked(old(Snap()), c)
    {
      if c == '[' {
        state := MaybeDelimiter;
        delimiterBuffer := [c];
      }
    }

    method HandleGoDelimiter(c: char)
      requires Valid()
      modifies this
      ensures Valid() && Snap() == Spec.HandleGoDelimiter(settings, old(Snap()), c)
    {
      hide Spec.ExitIntoData, Spec.EndGoDelimiter;
      if c == ']' {
        EndGoDelimiter();
        return;
      }
      ExitDelimiterIntoData(c);
    }

    method EndGoDelimiter()
      requires Valid()
      modifies this
      ensures Valid() && Snap() == Spec.EndGoDelimiter(settings, old(Snap()))
    {
      hide Spec.NextDocument;
      var stopped := didStop;
      state := GoState;
      delimiterBuffer := "";
      currentValue := "";
      parsingLocked := false;
      ghost var p1 := Snap();
      assert p1 == old(Snap()).(state := GoState, delimiterBuffer := "", currentValue := "", parsingLocked := false);
      if settings.strictStart && !stopped {
        NextDocument();
      }
      ghost var p2 := Snap();
      assert p2 == if settings.strictStart && !stopped then Spec.NextDocument(settings, p1) else p1;
      didStop := false;
    }

    method HandleStopDelimiter(c: char)
      requires Valid()
      modifies this
      ensures Valid() && Snap() == Spec.HandleStopDelimiter(settings, old(Snap()), c)
    {
      hide Spec.ExitIntoData, Spec.EndStopDelimiter;
      if c == ']' {
        EndStopDelimiter();
        return;
      }
      ExitDelimiterIntoData(c);
    }

    method EndStopDelimiter()
      requires Valid()
      modifies this
      ensures Valid() && Snap() == Spec.EndStopDelimiter(settings, old(Snap()))
    {
      hide Spec.EndDocument;
      state := StopState;
      delimiterBuffer := "";
      currentValue := "";
      if settings.strictEnd {
        EndDocument();
      }
    }

    method EndDocument()
      requires Valid()
      modifies this
      ensures Valid() && Snap() == Spec.EndDocument(settings, old(Snap()))
    {
      hide Spec.NextDocument;
      if settings.strictStart {
        parsingLocked := true;
      }
      NextDocument();
      state := Start;
      didStop := true;
    }

    method HandleStart(c: char)
      requires Valid()
      modifies this
      ensures Valid() && Snap() == Spec.HandleStart(old(Snap()), c)
    {
      if c == '[' {
        state := MaybeDelimiter;
        delimiterBuffer := delimiterBuffer + [c];
      } else {
        state := DataState;
        currentValue := currentValue + [c];
      }
    }

    method HandleMaybeDelimiter(c: char)
      requires Valid()
      modifies this
      ensures Valid() && Snap() == Spec.HandleMaybeDelimiter(settings, old(Snap()), c)
    {
      hide Spec.ExitIntoData;
      if |delimiterBuffer| > |delimiterOpenSubstring| {
        state := DataState;
        currentValue := currentValue + [c];
        return;
      }
      if |delimiterBuffer| < |delimiterOpenSubstring| && c == delimiterOpenSubstring[|delimiterBuffer|] {
        delimiterBuffer := delimiterBuffer + [c];
        if delimiterBuffer == delimiterOpenSubstring {
          state := Delimiter;
        }
        return;
      }
      ExitDelimiterIntoData(c);
    }

    method HandleDelimiter(c: char)
      requires Valid()
      modifies this, recentDelimiters
      ensures Valid() && Snap() == Spec.HandleDelimiter(settings, old(Snap()), c)
    {
      hide Spec.ExitIntoData;
      if parsingLocked && c != 'g' && !settings.strictStart {
        state := Locked;
        return;
      }
      match KindOf(c) {
        case Some(k) =>
          state := DelimiterStateFor(k);
          currentDelimiter := Some(Spec.DelimiterData(Some(k), None, []));
          delimiterBuffer := delimiterBuffer + [c];
          recentDelimiters.Add(k);
        case None =>
          if IsAlnum(c) {
            currentDelimiter := Some(Spec.DelimiterData(None, None, []));
            state := ReservedDelimiter;
            delimiterBuffer := delimiterBuffer + [c];
            return;
          }
          ExitDelimiterIntoData(c);
      }
    }

    method HandleReservedDelimiter(c: char)
      requires Valid()
      modifies this
      ensures Valid() && Snap() == Spec.HandleReservedDelimiter(old(Snap()), c)
    {
      hide Spec.ExitIntoData;
      if parsingLocked {
        state := Locked;
        return;
      }
      if c != ']' {
        ExitDelimiterIntoData(c);
        return;
      }
      delimiterBuffer := "";
      state := DataState;
      currentValue := "";
    }

    /** `get_object_safe_latest_result()`. */
    method GetObjectSafeLatestResult() returns (safe: bool)
      requires Valid()
      ensures safe == Spec.ObjectSafeLatest(settings, Snap())
    {
      var value := ValueAtKey();
      if value.None? {
        return false;
      }
      if value.value.Str? {
        if settings.collapseObjectStartWhitespace {
          return !Blank(value.value.s);
        }
        return value.value.s != "";
      }
      return !value.value.Null?;
    }

    /** `handle_object_delimiter` (`isArray` false) and
      * `handle_array_delimiter`. */
    method HandleContainerDelimiter(c: char, isArray: bool)
      requires Valid()
      modifies this
      ensures Valid() && Snap() == Spec.HandleContainerDelimiter(settings, old(Snap()), c, isArray)
    {
      hide Spec.ExitIntoData, Spec.EndContainerDelimiter;
      if parsingLocked {
        state := Locked;
        return;
      }
      if Spec.EscapeActive(currentEscapeDelimiter) {
        ExitDelimiterIntoData(c);
        return;
      }
      if c == ']' {
        EndContainerDelimiter(isArray);
        return;
      }
      ExitDelimiterIntoData(c);
    }

    method EndContainerDelimiter(isArray: bool)
      requires Valid()
      modifies this
      ensures Valid() && Snap() == Spec.EndContainerDelimiter(settings, old(Snap()), isArray)
    {
      hide Spec.ContainerActionOf, Spec.ApplyContainerAction;
      var action := ContainerAction();
      state := if isArray then ArrayState else ObjectState;
      delimiterBuffer := "";
      ApplyContainerAction(action, isArray);
    }

    /** The open-or-close decision on the current state. */
    method ContainerAction() returns (action: ContainerAction)
      requires Valid()
      ensures action == Spec.ContainerActionOf(settings, Snap())
      ensures action.Close? ==> |stack| > 1
    {
      hide Spec.ObjectSafeLatest;
      var second := Get2ndMostRecentMaterialDelimiter();
      var safe := GetObjectSafeLatestResult();
      var seen := GetCurrentKeyString() in TopFrame().alreadySeen;
      action := ContainerDecision(safe, Spec.HoldsContainer(ValueAtKey()), second == Some(Data), seen, |stack|);
    }

    method ApplyContainerAction(action: ContainerAction, isArray: bool)
      requires Valid() && (action.Close? ==> |stack| > 1)
      modifies this
      ensures Valid() && Snap() == Spec.ApplyContainerAction(settings, old(Snap()), action, isArray)
    {
      hide Spec.WithTop, Spec.CreateNew, Spec.CloseFrame;
      match action {
        case Open =>
          CreateNew(isArray);
        case ClearSeenAndOpen =>
          var top := TopFrame();
          SetTopFrame(top.(alreadySeen := top.alreadySeen - {PropertyName(top.currentKey)}));
          CreateNew(isArray);
        case Close =>
          CloseFrame();
        case KeepRoot =>
      }
    }

    /** The closing branch: end events, the copy down to the root, the pop. */
    method CloseFrame()
      requires Valid() && |stack| > 1
      modifies this
      ensures Valid() && Snap() == Spec.CloseFrame(settings, old(Snap()))
    {
      hide Spec.SyncStackToRoot, Spec.EmitEnd, Spec.EmitEndData;
      EmitEndEventsIfRequired();
      EmitEndDataEventsIfRequired();
      SyncStackToRoot();
      stack := stack[..|stack| - 1];
    }

    method HandleInstructionDelimiter(c: char)
      requires Valid()
      modifies this
      ensures Valid() && Snap() == Spec.HandleInstructionDelimiter(old(Snap()), c)
    {
      hide Spec.ExitIntoData;
      if parsingLocked {
        state := Locked;
        return;
      }
      if Spec.EscapeActive(currentEscapeDelimiter) || c == ']' {
        ExitDelimiterIntoData(c);
        return;
      }
      if c == '_' {
        state := InstructionDelimiterName;
        delimiterBuffer := delimiterBuffer + [c];
        currentDelimiter := Some(Spec.DelimOf(currentDelimiter).(content := Some("")));
        currentValue := "";
        return;
      }
      ExitDelimiterIntoData(c);
    }

    method HandleInstructionDelimiterName(c: char)
      requires Valid()
      modifies this
      ensures Valid() && Snap() == Spec.HandleInstructionDelimiterName(settings, old(Snap()), c)
    {
      hide Spec.ExitIntoData, Spec.EndInstructionName;
      var content := Spec.ContentOf(currentDelimiter);
      if parsingLocked {
        state := Locked;
        return;
      }
      if content != "" && c == ':' {
        if EndsWithUnderscore(content) {
          ExitDelimiterIntoData(c);
          return;
        }
        state := InstructionDelimiterArgs;
        currentDelimiter := Some(Spec.DelimOf(currentDelimiter).(args := [""]));
        currentValue := "";
        delimiterBuffer := delimiterBuffer + [c];
        return;
      }
      if c == '_' && content == "" {
        ExitDelimiterIntoData(c);
        return;
      }
      if c == ']' {
        if EndsWithUnderscore(content) {
          ExitDelimiterIntoData(c);
          return;
        }
        EndInstructionName();
        return;
      }
      if !IsNameChar(c) {
        ExitDelimiterIntoData(c);
        return;
      }
      currentDelimiter := Some(Spec.DelimOf(currentDelimiter).(content := Some(content + [c])));
      delimiterBuffer := delimiterBuffer + [c];
    }

    method EndInstructionName()
      requires Valid()
      modifies this
      ensures Valid() && Snap() == Spec.EndInstructionName(settings, old(Snap()))
    {
      hide Spec.CompleteInstruction;
      var at := Spec.InstructionIndices(ValueAtKey());
      state := DataState;
      ghost var p1 := Snap();
      assert p1 == old(Snap()).(state := DataState);
      RegisterInstructionIfAllowed(at);
      ghost var p2 := Snap();
      assert p2 == Spec.CompleteInstruction(settings, p1, at);
      delimiterBuffer := "";
      currentValue := "";
    }

    method HandleInstructionDelimiterArgs(c: char)
      requires Valid()
      modifies this
      ensures Valid() && Snap() == Spec.HandleInstructionDelimiterArgs(settings, old(Snap()), c)
    {
      hide Spec.CompleteInstruction, Spec.WithArgs;
      if parsingLocked {
        state := Locked;
        return;
      }
      if c == ']' {
        var at := Spec.InstructionIndices(ValueAtKey());
        state := DataState;
        delimiterBuffer := "";
        currentValue := "";
        RegisterInstructionIfAllowed(at);
        return;
      }
      ExtendArgs(c);
    }

    /** `:` starts a new argument; any other character extends the last one. */
    method ExtendArgs(c: char)
      requires Valid()
      modifies this
      ensures Valid()
      ensures c == ':' ==> Snap() == Spec.WithArgs(old(Snap()).(delimiterBuffer := old(delimiterBuffer) + [c]), Spec.ArgsOf(old(currentDelimiter)) + [""])
      ensures c != ':' ==> Snap() == Spec.WithArgs(old(Snap()), Spec.ExtendLastArg(Spec.ArgsOf(old(currentDelimiter)), c)).(delimiterBuffer := old(delimiterBuffer) + [c])
    {
      var d := Spec.DelimOf(currentDelimiter);
      delimiterBuffer := delimiterBuffer + [c];
      if c == ':' {
        currentDelimiter := Some(d.(args := d.args + [""]));
      } else {
        currentDelimiter := Some(d.(args := Spec.ExtendLastArg(d.args, c)));
      }
    }

    method HandleDataDelimiter(c: char)
      requires Valid()
      modifies this
      ensures Valid() && Snap() == Spec.HandleDataDelimiter(settings, old(Snap()), c)
    {
      hide Spec.ExitIntoData, Spec.NextElement;
      if parsingLocked {
        state := Locked;
        return;
      }
      if Spec.EscapeActive(currentEscapeDelimiter) {
        ExitDelimiterIntoData(c);
        return;
      }
      if c == ']' {
        if TopFrame().container.Arr? {
          NextElement();
          return;
        }
        ExitDelimiterIntoData(c);
        return;
      }
      if c == '_' {
        state := DataDelimiterName;
        delimiterBuffer := delimiterBuffer + [c];
        currentDelimiter := Some(Spec.DelimOf(currentDelimiter).(content := Some("")));
        currentValue := "";
        return;
      }
      ExitDelimiterIntoData(c);
    }

    method NextElement()
      requires Valid()
      modifies this
      ensures Valid() && Snap() == Spec.NextElement(settings, old(Snap()))
    {
      hide Spec.EmitEnd, Spec.EmitEndData, Spec.NextKey;
      state := DataState;
      delimiterBuffer := "";
      currentValue := "";
      ghost var p1 := Snap();
      assert p1 == old(Snap()).(state := DataState, delimiterBuffer := "", currentValue := "");
      EmitEndEventsIfRequired();
      ghost var p2 := Snap();
      assert p2 == Spec.EmitEnd(settings, p1);
      EmitEndDataEventsIfRequired();
      ghost var p3 := Snap();
      assert p3 == Spec.EmitEndData(settings, p2);
      NextKey();
    }

    method StartDataArgs(c: char)
      requires Valid()
      modifies this
      ensures Valid() && Snap() == Spec.StartDataArgs(settings, old(Snap()), c)
    {
      hide Spec.EmitEnd, Spec.EmitEndData, Spec.NextKey;
      state := DataDelimiterArgs;
      currentDelimiter := Some(Spec.DelimOf(currentDelimiter).(args := [""]));
      currentValue := "";
      delimiterBuffer := delimiterBuffer + [c];
      ghost var p1 := Snap();
      assert p1 == Spec.WithArgs(old(Snap()).(state := DataDelimiterArgs, currentValue := "", delimiterBuffer := old(delimiterBuffer) + [c]), [""]);
      EmitEndEventsIfRequired();
      ghost var p2 := Snap();
      assert p2 == Spec.EmitEnd(settings, p1);
      EmitEndDataEventsIfRequired();
      ghost var p3 := Snap();
      assert p3 == Spec.EmitEndData(settings, p2);
      NextKey();
    }

    /** The separator for a repeated text key, then the pending text is
      * cleared. */
    method AppendSeparator(withArgs: bool)
      requires Valid()
      modifies this
      ensures Valid() && Snap() == Spec.AppendSeparator(settings, old(Snap()), withArgs)
    {
      hide Spec.StoreCurrentValue;
      var key := GetCurrentKeyString();
      var top := TopFrame();
      var value := ValueAtKey();
      if key in top.alreadySeen
         && (withArgs ==> key in top.insertionTypes && top.insertionTypes[key] in {Append, Default})
         && value.Some? && !Spec.HoldsContainer(value)
      {
        currentValue := settings.appendSeparator;
        StoreCurrentValue();
      }
      currentValue := "";
    }

    method EndDataName()
      requires Valid()
      modifies this
      ensures Valid() && Snap() == Spec.EndDataName(settings, old(Snap()))
    {
      hide Spec.EmitEnd, Spec.EmitEndData, Spec.SetDataInsertionType, Spec.NextKey, Spec.AppendSeparator;
      state := DataState;
      ghost var p1 := Snap();
      assert p1 == old(Snap()).(state := DataState);
      EmitEndEventsIfRequired();
      ghost var p2 := Snap();
      assert p2 == Spec.EmitEnd(settings, p1);
      EmitEndDataEventsIfRequired();
      ghost var p3 := Snap();
      assert p3 == Spec.EmitEndData(settings, p2);
      NextKey();
      ghost var p4 := Snap();
      assert p4 == Spec.NextKey(settings, p3);
      delimiterBuffer := "";
      SetDataInsertionType(Default);
      AppendSeparator(false);
    }

    method HandleDataDelimiterName(c: char)
      requires Valid()
      modifies this
      ensures Valid() && Snap() == Spec.HandleDataDelimiterName(settings, old(Snap()), c)
    {
      hide Spec.ExitIntoData, Spec.StartDataArgs, Spec.EndDataName;
      var content := Spec.ContentOf(currentDelimiter);
      if parsingLocked {
        state := Locked;
        return;
      }
      if content != "" && c == ':' {
        if EndsWithUnderscore(content) {
          ExitDelimiterIntoData(c);
          return;
        }
        StartDataArgs(c);
        return;
      }
      if c == '_' && content == "" {
        ExitDelimiterIntoData(c);
        return;
      }
      if c == ']' {
        if EndsWithUnderscore(content) {
          ExitDelimiterIntoData(c);
          return;
        }
        EndDataName();
        return;
      }
      if !IsNameChar(c) {
        ExitDelimiterIntoData(c);
        return;
      }
      currentDelimiter := Some(Spec.DelimOf(currentDelimiter).(content := Some(content + [c])));
      delimiterBuffer := delimiterBuffer + [c];
    }

    method HandleDataDelimiterArgs(c: char)
      requires Valid()
      modifies this
      ensures Valid() && Snap() == Spec.HandleDataDelimiterArgs(settings, old(Snap()), c)
    {
      hide Spec.WithArgs, Spec.EndDataArgs;
      if parsingLocked {
        state := Locked;
        return;
      }
      if c == ']' {
        EndDataArgs();
        return;
      }
      ExtendArgs(c);
    }

    method EndDataArgs()
      requires Valid()
      modifies this
      ensures Valid() && Snap() == Spec.EndDataArgs(settings, old(Snap()))
    {
      hide Spec.EmitEnd, Spec.EmitEndData, Spec.SetDataInsertionType, Spec.AppendSeparator;
      var args := Spec.ArgsOf(currentDelimiter);
      state := DataState;
      delimiterBuffer := "";
      SetDataInsertionType(InsertionFromArg(if args == [] then "" else args[0]));
      EmitEndEventsIfRequired();
      EmitEndDataEventsIfRequired();
      AppendSeparator(true);
    }

    method HandleVoidDelimiter(c: char)
      requires Valid()
      modifies this
      ensures Valid() && Snap() == Spec.HandleVoidDelimiter(old(Snap()), c)
    {
      hide Spec.WithTop, Spec.ExitIntoData;
      if parsingLocked {
        state := Locked;
        return;
      }
      if Spec.EscapeActive(currentEscapeDelimiter) {
        ExitDelimiterIntoData(c);
        return;
      }
      if c == ']' {
        state := DataState;
        delimiterBuffer := "";
        currentValue := "";
        var top := TopFrame();
        SetTopFrame(top.(voidFields := top.voidFields + {PropertyName(top.currentKey)}));
        return;
      }
      ExitDelimiterIntoData(c);
    }

    method HandleCommentDelimiter(c: char)
      requires Valid()
      modifies this
      ensures Valid() && Snap() == Spec.HandleCommentDelimiter(old(Snap()), c)
    {
      hide Spec.ExitIntoData;
      if parsingLocked {
        state := Locked;
        return;
      }
      if Spec.EscapeActive(currentEscapeDelimiter) {
        ExitDelimiterIntoData(c);
        return;
      }
      if c == ']' {
        state := CommentState;
        delimiterBuffer := "";
        currentValue := "";
        return;
      }
      ExitDelimiterIntoData(c);
    }

    method HandleEscapeDelimiter(c: char)
      requires Valid()
      modifies this
      ensures Valid() && Snap() == Spec.HandleEscapeDelimiter(old(Snap()), c)
    {
      hide Spec.ExitIntoData;
      if parsingLocked {
        state := Locked;
        return;
      }
      if c == ']' {
        ExitDelimiterIntoData(c);
        return;
      }
      if c == '_' {
        state := EscapeDelimiterName;
        delimiterBuffer := delimiterBuffer + [c];
        currentDelimiter := Some(Spec.DelimOf(currentDelimiter).(content := Some("")));
        currentValue := "";
        return;
      }
      ExitDelimiterIntoData(c);
    }

    method HandleEscapeDelimiterName(c: char)
      requires Valid()
      modifies this
      ensures Valid() && Snap() == Spec.HandleEscapeDelimiterName(settings, old(Snap()), c)
    {
      hide Spec.ExitIntoData, Spec.EndEscapeName;
      var content := Spec.ContentOf(currentDelimiter);
      if parsingLocked {
        state := Locked;
        return;
      }
      if c == '_' && content == "" {
        ExitDelimiterIntoData(c);
        return;
      }
      if c == ']' {
        if EndsWithUnderscore(content) {
          ExitDelimiterIntoData(c);
          return;
        }
        EndEscapeName(content);
        return;
      }
      if !IsNameChar(c) {
        ExitDelimiterIntoData(c);
        return;
      }
      currentDelimiter := Some(Spec.DelimOf(currentDelimiter).(content := Some(content + [c])));
      delimiterBuffer := delimiterBuffer + [c];
    }

    method EndEscapeName(content: string)
      requires Valid()
      modifies this
      ensures Valid() && Snap() == Spec.EndEscapeName(settings, old(Snap()), content)
    {
      hide Spec.ExitIntoData, Spec.StoreCurrentValue;
      state := EscapeState;
      delimiterBuffer := "";
      currentValue := "";
      if currentEscapeDelimiter.None? {
        currentEscapeDelimiter := Some(content);
      } else if currentEscapeDelimiter.value != content {
        currentValue := "[" + settings.prefix + "e_" + content;
        StoreCurrentValue();
        ExitDelimiterIntoData(']');
      } else {
        currentEscapeDelimiter := None;
        state := DataState;
        delimiterBuffer := "";
        currentValue := "";
      }
    }

    method HandlePartDelimiter(c: char)
      requires Valid()
      modifies this
      ensures Valid() && Snap() == Spec.HandlePartDelimiter(settings, old(Snap()), c)
    {
      hide Spec.ExitIntoData, Spec.NextKey, Spec.AddPart;
      if parsingLocked {
        state := Locked;
        return;
      }
      if Spec.EscapeActive(currentEscapeDelimiter) {
        ExitDelimiterIntoData(c);
        return;
      }
      if c == ']' {
        AddPart();
        state := DataState;
        delimiterBuffer := "";
        currentValue := "";
        NextKey();
        return;
      }
      ExitDelimiterIntoData(c);
    }

    method AddPart()
      requires Valid()
      modifies this
      ensures Valid() && Snap() == Spec.AddPart(settings, old(Snap()))
    {
      hide Spec.WithTop, Spec.SetValueAtKey, Spec.AppendToArrayAtKey, Spec.EmitEnd;
      var key := GetCurrentKeyString();
      var v := ValueAtKey();
      if key in TopFrame().locks {
        return;
      }
      if Spec.Falsy(v) {
        var top := TopFrame();
        SetTopFrame(top.(implicitArrays := top.implicitArrays + {key}));
        SetValueAtKey(Arr([Str("")]));
      } else if v.value.Str? {
        var top := TopFrame();
        SetTopFrame(top.(implicitArrays := top.implicitArrays + {key}));
        SetValueAtKey(Arr([v.value, Str("")]));
      } else if v.value.Arr? {
        EmitEndEventsIfRequired();
        AppendToArrayAtKey(Str(""));
      }
    }

    method HandleGo(c: char)
      requires Valid()
      modifies this
      ensures Valid() && Snap() == Spec.HandleGo(old(Snap()), c)
    {
      hide Spec.ExitIntoData;
      if c == '[' {
        state := MaybeDelimiter;
        delimiterBuffer := delimiterBuffer + [c];
        return;
      }
      ExitDelimiterIntoData(c);
    }

    /** `handle_stop`, `handle_object` and `handle_array`. */
    method HandleCollecting(c: char)
      requires Valid()
      modifies this
      ensures Valid() && Snap() == Spec.HandleCollecting(old(Snap()), c)
    {
      if parsingLocked {
        state := Locked;
        return;
      }
      if c == '[' {
        state := MaybeDelimiter;
        delimiterBuffer := delimiterBuffer + [c];
        return;
      }
      currentValue := currentValue + [c];
    }

    method HandleComment(c: char)
      requires Valid()
      modifies this
      ensures Valid() && Snap() == Spec.HandleComment(old(Snap()), c)
    {
      if parsingLocked {
        state := Locked;
        return;
      }
      if c == '[' {
        state := MaybeDelimiter;
        delimiterBuffer := delimiterBuffer + [c];
      }
    }

    method HandleEscape(c: char)
      requires Valid()
      modifies this
      ensures Valid() && Snap() == Spec.HandleEscape(settings, old(Snap()), c)
    {
      hide Spec.StoreCurrentValue, Spec.EscapeChar;
      if parsingLocked {
        state := Locked;
        return;
      }
      EscapeChar(c);
      StoreCurrentValue();
      state := DataState;
      delimiterBuffer := "";
      currentValue := "";
    }

    method EscapeChar(c: char)
      requires Valid()
      modifies this
      ensures Valid() && Snap() == Spec.EscapeChar(old(Snap()), c)
    {
      if c == '[' {
        state := MaybeDelimiter;
        delimiterBuffer := delimiterBuffer + [c];
      }
      currentValue := currentValue + [c];
    }

    method HandleData(c: char)
      requires Valid()
      modifies this
      ensures Valid() && Snap() == Spec.HandleData(settings, old(Snap()), c)
    {
      hide Spec.StoreCurrentValue;
      if parsingLocked {
        state := Locked;
        return;
      }
      if c == '[' {
        state := MaybeDelimiter;
        delimiterBuffer := delimiterBuffer + [c];
        return;
      }
      currentValue := currentValue + [c];
      StoreCurrentValue();
    }

    /** `handle_next_char(ch)`. */
    method HandleNextChar(c: char)
      requires Valid()
      modifies this, recentDelimiters
      ensures Valid() && Snap() == Spec.Step(settings, old(Snap()), c)
    {
      hide Spec.HandleLocked, Spec.HandleGoDelimiter, Spec.HandleStopDelimiter, Spec.HandleStart, Spec.HandleMaybeDelimiter, Spec.HandleDelimiter, Spec.HandleReservedDelimiter, Spec.HandleContainerDelimiter, Spec.HandleInstructionDelimiter, Spec.HandleInstructionDelimiterName, Spec.HandleInstructionDelimiterArgs, Spec.HandleDataDelimiter, Spec.HandleDataDelimiterName, Spec.HandleDataDelimiterArgs, Spec.HandleVoidDelimiter, Spec.HandleCommentDelimiter, Spec.HandleEscapeDelimiter, Spec.HandleEscapeDelimiterName, Spec.HandlePartDelimiter, Spec.HandleGo, Spec.HandleCollecting, Spec.HandleComment, Spec.HandleEscape, Spec.HandleData;
      match state {
        case GoDelimiter => HandleGoDelimiter(c);
        case StopDelimiter => HandleStopDelimiter(c);
        case GoState => HandleGo(c);
        case StopState => HandleCollecting(c);
        case Start => HandleStart(c);
        case MaybeDelimiter => HandleMaybeDelimiter(c);
        case Delimiter => HandleDelimiter(c);
        case ReservedDelimiter => HandleReservedDelimiter(c);
        case ObjectState => HandleCollecting(c);
        case ArrayState => HandleCollecting(c);
        case CommentState => HandleComment(c);
        case EscapeState => HandleEscape(c);
        case InstructionDelimiter => HandleInstructionDelimiter(c);
        case InstructionDelimiterName => HandleInstructionDelimiterName(c);
        case InstructionDelimiterArgs => HandleInstructionDelimiterArgs(c);
        case DataDelimiter => HandleDataDelimiter(c);
        case DataDelimiterName => HandleDataDelimiterName(c);
        case DataDelimiterArgs => HandleDataDelimiterArgs(c);
        case ObjectDelimiter => HandleContainerDelimiter(c, false);
        case ArrayDelimiter => HandleContainerDelimiter(c, true);
        case VoidDelimiter => HandleVoidDelimiter(c);
        case CommentDelimiter => HandleCommentDelimiter(c);
        case EscapeDelimiter => HandleEscapeDelimiter(c);
        case EscapeDelimiterName => HandleEscapeDelimiterName(c);
        case PartDelimiter => HandlePartDelimiter(c);
        case DataState => HandleData(c);
        case Locked => HandleLocked(c);
      }
    }

    /** `parse_next(input)`. */
    method ParseNext(input: string)
      requires Valid()
      modifies this, recentDelimiters
      ensures Valid() && Snap() == Spec.Run(settings, old(Snap()), input)
    {
      hide Spec.Step;
      for i := 0 to |input|
        invariant Valid()
        invariant Snap() == Spec.Run(settings, old(Snap()), input[..i])
      {
        assert input[..i + 1][..i] == input[..i];
        HandleNextChar(input[i]);
      }
      assert input[..|input|] == input;
    }

    /** `parse(input)`. */
    method Parse(input: string) returns (r: Spec.Output)
      requires Valid()
      modifies this, recentDelimiters
      ensures Valid() && Snap() == Spec.Parse(settings, old(Snap()), input)
      ensures r == Spec.OutputOf(settings, Snap())
    {
      hide Spec.Close, Spec.Run;
      ParseNext(input);
      Close();
      if settings.multiAslanOutput {
        var results := GetResults();
        r := Spec.Multiple(results);
      } else {
        r := Spec.Single(GetResult());
      }
    }
  }
}
