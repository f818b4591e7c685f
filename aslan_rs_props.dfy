// Properties of the Rust decoder, stated on the functions of AslanRsSpec
// that the class in AslanRs is proved against.
module AslanRsProps {
  import opened Wrappers
  import opened AslanCommon
  import opened AslanRsSpec
  import History
  import Decimal
  import AslanTsSpec

  // ---------------------------------------------------------------------
  // Values: reading and writing at a key.
  // ---------------------------------------------------------------------

  /** The array slot of a key is the key's text read as a `usize`, as the
    * source does it, for every index an `i64` can hold. */
  lemma ArraySlotReadsKeyText(k: Key)
    requires k.Index? ==> k.i <= Decimal.I64Max
    ensures ArraySlot(k) == Decimal.ParseUsizeStrict(PropertyName(k))
  {
    if k.Index? {
      Decimal.IndexTextAsUsize(k.i);
    }
  }

  /** What was written is read back. */
  lemma PutGet(c: Value, k: Key, v: Value)
    requires Writable(c, k)
    ensures Get(Put(c, k, v), k) == Some(v)
  {
  }

  /** A write leaves every other property of an object alone; in an array it
    * leaves the other elements alone, pads the gap below the slot with
    * `null`, and makes the array just long enough for the slot. */
  lemma PutElsewhere(c: Value, k: Key, v: Value)
    ensures c.Obj? ==> forall n :: n != PropertyName(k) ==> Get(Put(c, k, v), Name(n)) == Get(c, Name(n))
    ensures c.Arr? && ArraySlot(k).Some? ==>
              var j := ArraySlot(k).value;
              |Put(c, k, v).elems| == Max(|c.elems|, j + 1)
              && (forall i :: 0 <= i < |c.elems| && i != j ==> Put(c, k, v).elems[i] == c.elems[i])
              && (forall i :: |c.elems| <= i < j ==> Put(c, k, v).elems[i] == Null)
  {
    if c.Obj? {
      forall n | n != PropertyName(k)
        ensures Get(Put(c, k, v), Name(n)) == Get(c, Name(n))
      {
        assert PropertyName(Name(n)) == n;
      }
    }
  }

  /** Writing the same value twice is writing it once. */
  lemma PutIdempotent(c: Value, k: Key, v: Value)
    ensures Put(Put(c, k, v), k, v) == Put(c, k, v)
  {
    if c.Arr? && ArraySlot(k).Some? {
      var j := ArraySlot(k).value;
      PutElsewhere(c, k, v);
      assert |Put(c, k, v).elems| > j;
    }
  }

  // ---------------------------------------------------------------------
  // The stack: every frame owns a copy of its container.
  // ---------------------------------------------------------------------

  /** The document as the frames describe it from frame `k` up: the
    * container of frame `k` with the assembled container of frame `k + 1`
    * at its key. */
  function AssembleFrom(stack: seq<Frame>, k: nat): Value
    requires k < |stack|
    decreases |stack| - k
  {
    if k == |stack| - 1 then stack[k].container
    else Put(stack[k].container, stack[k].currentKey, AssembleFrom(stack, k + 1))
  }

  /** The loop from `i` down leaves the frames from `i` up alone and puts
    * into each frame below the already copied frame above it. */
  lemma {:induction false} SyncFromShape(stack: seq<Frame>, i: nat)
    requires i < |stack|
    ensures forall k :: i <= k < |stack| ==> SyncFrom(stack, i)[k] == stack[k]
    ensures forall k :: 0 <= k < i ==> SyncFrom(stack, i)[k] == Place(stack[k], SyncFrom(stack, i)[k + 1].container)
    decreases i
  {
    if i > 0 {
      var st := stack[i - 1 := Place(stack[i - 1], stack[i].container)];
      SyncFromShape(st, i - 1);
    }
  }

  /** After `sync_stack_to_root` every frame holds the document from its own
    * level up, the root the whole document; every frame keeps its key and
    * flags, and the top frame is unchanged. */
  lemma {:induction false} SyncedAssembles(stack: seq<Frame>)
    requires |stack| > 0
    ensures forall k :: 0 <= k < |stack| ==> Synced(stack)[k].container == AssembleFrom(stack, k)
    ensures forall k :: 0 <= k < |stack| ==> Synced(stack)[k] == stack[k].(container := Synced(stack)[k].container)
    ensures Synced(stack)[|stack| - 1] == stack[|stack| - 1]
  {
    var n := |stack|;
    var r := Synced(stack);
    SyncFromShape(stack, n - 1);
    var k := n - 1;
    while k > 0
      invariant 0 <= k < n
      invariant forall j :: k <= j < n ==> r[j].container == AssembleFrom(stack, j)
      invariant forall j :: k <= j < n ==> r[j] == stack[j].(container := r[j].container)
    {
      assert r[k - 1] == Place(stack[k - 1], r[k].container);
      k := k - 1;
    }
  }

  /** Copying down a second time changes nothing. */
  lemma SyncedIdempotent(stack: seq<Frame>)
    requires |stack| > 0
    ensures Synced(Synced(stack)) == Synced(stack)
  {
    var n := |stack|;
    var r := Synced(stack);
    var r2 := Synced(r);
    SyncFromShape(stack, n - 1);
    SyncFromShape(r, n - 1);
    var k := n - 1;
    while k > 0
      invariant 0 <= k < n
      invariant forall j :: k <= j < n ==> r2[j] == r[j]
    {
      PutIdempotent(stack[k - 1].container, stack[k - 1].currentKey, r[k].container);
      assert r2[k - 1] == r[k - 1];
      k := k - 1;
    }
    assert r2 == r;
  }

  /** `sync_stack_to_root` keeps the top frame and every key, and makes the
    * last document the assembled root. */
  lemma SyncStackToRootMeaning(p: Parser)
    requires Live(p)
    ensures Top(SyncStackToRoot(p)) == Top(p)
    ensures SyncStackToRoot(p).stack[0].container == AssembleFrom(p.stack, 0)
    ensures |SyncStackToRoot(p).results| == |p.results|
    ensures p.results != [] ==> SyncStackToRoot(p).results == p.results[..|p.results| - 1] + [AssembleFrom(p.stack, 0)]
    ensures SyncStackToRoot(SyncStackToRoot(p)) == SyncStackToRoot(p)
    ensures SyncStackToRoot(p) == p.(stack := SyncStackToRoot(p).stack, results := SyncStackToRoot(p).results)
    ensures SameEarlier(SyncStackToRoot(p), p)
  {
    SyncedAssembles(p.stack);
    SyncedIdempotent(p.stack);
    if p.results != [] {
      var r := SyncStackToRoot(p).results;
      assert r == p.results[..|p.results| - 1] + [AssembleFrom(p.stack, 0)];
    }
  }

  /** The documents before the last one are the same. */
  predicate SameEarlier(p: Parser, q: Parser)
  {
    |p.results| == |q.results| && (p.results != [] ==> p.results[..|p.results| - 1] == q.results[..|q.results| - 1])
  }

  /** A write at the current key lands in the top frame (and, copied, in
    * the root document); the key and the flags of the frame are kept. */
  lemma SetValueAtKeyMeaning(p: Parser, v: Value)
    requires Live(p)
    ensures var r := SetValueAtKey(p, v);
            Top(r) == Top(p).(container := Put(Top(p).container, CurrentKey(p), v))
            && r == p.(stack := r.stack, results := r.results)
    ensures Writable(Top(p).container, CurrentKey(p)) ==> Latest(SetValueAtKey(p, v)) == Some(v)
    ensures SameEarlier(SetValueAtKey(p, v), p)
  {
    hide SyncStackToRoot;
    SyncStackToRootMeaning(WithTop(p, Place(Top(p), v)));
  }

  // ---------------------------------------------------------------------
  // Storing text into a field.
  // ---------------------------------------------------------------------

  /** The fields that decide how the next character is read. */
  predicate SameReader(p: Parser, q: Parser)
  {
    p.state == q.state && p.delimiterBuffer == q.delimiterBuffer && p.parsingLocked == q.parsingLocked
    && p.currentEscapeDelimiter == q.currentEscapeDelimiter && p.currentDelimiter == q.currentDelimiter
    && p.didStop == q.didStop && p.recentDelimiters == q.recentDelimiters
  }

  /** The flags of the top frame. */
  predicate SameFlags(f: Frame, g: Frame)
  {
    f.currentKey == g.currentKey && f.locks == g.locks && f.voidFields == g.voidFields
    && f.implicitArrays == g.implicitArrays && f.insertionTypes == g.insertionTypes
    && f.alreadySeen == g.alreadySeen && f.instructions == g.instructions && f.minArrayIndex == g.minArrayIndex
  }

  lemma SetValueKeepsReader(p: Parser, v: Value)
    requires Live(p)
    ensures SameReader(SetValueAtKey(p, v), p) && SameFlags(Top(SetValueAtKey(p, v)), Top(p))
    ensures |SetValueAtKey(p, v).stack| == |p.stack| && SetValueAtKey(p, v).currentValue == p.currentValue
    ensures SetValueAtKey(p, v).events == p.events && SameEarlier(SetValueAtKey(p, v), p)
  {
    hide SetValueAtKey;
    SetValueAtKeyMeaning(p, v);
  }

  lemma StorePrimitiveKeepsReader(s: Settings, p: Parser)
    requires Live(p)
    ensures SameReader(StorePrimitive(s, p), p) && SameFlags(Top(StorePrimitive(s, p)), Top(p))
    ensures |StorePrimitive(s, p).stack| == |p.stack| && StorePrimitive(s, p).currentValue == p.currentValue
    ensures SameEarlier(StorePrimitive(s, p), p)
  {
    hide SetValueAtKey, EmitPrimitive;
    SetValueKeepsReader(p, Str(AsStr(Latest(p)) + p.currentValue));
  }

  lemma StoreImplicitKeepsReader(s: Settings, p: Parser)
    requires Live(p)
    ensures SameReader(StoreImplicit(s, p), p) && SameFlags(Top(StoreImplicit(s, p)), Top(p))
    ensures |StoreImplicit(s, p).stack| == |p.stack| && SameEarlier(StoreImplicit(s, p), p)
  {
    hide SetValueAtKey, EmitImplicit;
    var xs := AsArr(Latest(p));
    if Latest(p).Some? && Latest(p).value.Arr? && xs != [] {
      var last := |xs| - 1;
      SetValueKeepsReader(p, Arr(xs[last := Str(AsStr(Some(xs[last])) + p.currentValue)]));
    }
  }

  /** Storing the pending text changes the document, the documents list and
    * the events only, and leaves nothing pending. */
  lemma StoreKeepsReader(s: Settings, p: Parser)
    requires Live(p)
    ensures SameReader(StoreCurrentValue(s, p), p) && SameFlags(Top(StoreCurrentValue(s, p)), Top(p))
    ensures |StoreCurrentValue(s, p).stack| == |p.stack|
    ensures StoreCurrentValue(s, p).currentValue == "" && SameEarlier(StoreCurrentValue(s, p), p)
  {
    hide StorePrimitive, StoreImplicit, SetValueAtKey;
    if KeyName(p) in Top(p).voidFields {
      SetValueKeepsReader(p.(currentValue := ""), Null);
    } else if p.currentValue != "" {
      StorePrimitiveKeepsReader(s, p);
      StoreImplicitKeepsReader(s, StorePrimitive(s, p));
    }
  }

  /** Text for an unlocked field that holds no container is appended to the
    * field's text (a missing or non-text value counting as empty). */
  lemma StoreAppendsText(s: Settings, p: Parser)
    requires Live(p) && p.currentValue != ""
    requires KeyName(p) !in Top(p).voidFields && KeyName(p) !in Top(p).locks && KeyName(p) !in Top(p).implicitArrays
    requires !FieldIsContainer(p) && Writable(Top(p).container, CurrentKey(p))
    ensures Latest(StoreCurrentValue(s, p)) == Some(Str(AsStr(Latest(p)) + p.currentValue))
  {
    hide SetValueAtKey, EmitPrimitive, AppendToLastPart, EmitImplicit;
    var v := Str(AsStr(Latest(p)) + p.currentValue);
    SetValueAtKeyMeaning(p, v);
    SetValueKeepsReader(p, v);
    var q := SetValueAtKey(p, v);
    assert StorePrimitive(s, p) == EmitPrimitive(s, q, ContentTag);
    assert StoreImplicit(s, StorePrimitive(s, p)) == StorePrimitive(s, p);
  }

  /** A locked field (a KEEP_FIRST key seen again) keeps its value: the
    * pending text is dropped and nothing else changes. */
  lemma LockedFieldKeepsValue(s: Settings, p: Parser)
    requires Live(p) && p.currentValue != ""
    requires KeyName(p) !in Top(p).voidFields && KeyName(p) in Top(p).locks
    ensures StoreCurrentValue(s, p) == p.(currentValue := "")
  {
  }

  /** A VOID field becomes `null` whatever text it is given. */
  lemma VoidFieldIsNull(s: Settings, p: Parser)
    requires Live(p) && KeyName(p) in Top(p).voidFields && Writable(Top(p).container, CurrentKey(p))
    ensures Latest(StoreCurrentValue(s, p)) == Some(Null)
  {
    hide SetValueAtKey;
    SetValueAtKeyMeaning(p.(currentValue := ""), Null);
  }

  /** A repeated text key (seen before, holding text) gets the separator
    * appended when its data token completes. */
  lemma SeparatorAppended(s: Settings, p: Parser, withArgs: bool)
    requires Live(p) && RepeatsText(p, withArgs) && s.appendSeparator != ""
    requires KeyName(p) !in Top(p).voidFields && KeyName(p) !in Top(p).locks && KeyName(p) !in Top(p).implicitArrays
    ensures Latest(AppendSeparator(s, p, withArgs)) == Some(Str(AsStr(Latest(p)) + s.appendSeparator))
    ensures AppendSeparator(s, p, withArgs).currentValue == ""
  {
    hide StoreCurrentValue;
    var q := p.(currentValue := s.appendSeparator);
    assert Writable(Top(q).container, CurrentKey(q)) by {
      assert Latest(p).Some?;
    }
    StoreAppendsText(s, q);
  }

  /** Without a repeated text key only the pending text is cleared. */
  lemma NoSeparatorOtherwise(s: Settings, p: Parser, withArgs: bool)
    requires Live(p) && !RepeatsText(p, withArgs)
    ensures AppendSeparator(s, p, withArgs) == p.(currentValue := "")
  {
  }

  // ---------------------------------------------------------------------
  // Reading characters: dispatch, text and the opening `[` + prefix.
  // ---------------------------------------------------------------------

  /** One more character of input is one more step. */
  lemma RunSnoc(s: Settings, p: Parser, input: string, c: char)
    requires Live(p)
    ensures Run(s, p, input + [c]) == Step(s, Run(s, p, input), c)
  {
    assert (input + [c])[..|input|] == input;
  }

  /** `handle_next_char` dispatches on the state: the text states. */
  lemma StepDispatch(s: Settings, p: Parser, c: char)
    requires Live(p)
    ensures p.state == DataState ==> Step(s, p, c) == HandleData(s, p, c)
    ensures p.state == MaybeDelimiter ==> Step(s, p, c) == HandleMaybeDelimiter(s, p, c)
    ensures p.state == Delimiter ==> Step(s, p, c) == HandleDelimiter(s, p, c)
    ensures p.state == Locked ==> Step(s, p, c) == HandleLocked(p, c)
    ensures p.state == CommentState ==> Step(s, p, c) == HandleComment(p, c)
  {
    hide HandleGoDelimiter, HandleStopDelimiter, HandleGo, HandleCollecting, HandleStart, HandleMaybeDelimiter,
         HandleDelimiter, HandleReservedDelimiter, HandleComment, HandleEscape, HandleInstructionDelimiter,
         HandleInstructionDelimiterName, HandleInstructionDelimiterArgs, HandleDataDelimiter, HandleDataDelimiterName,
         HandleDataDelimiterArgs, HandleContainerDelimiter, HandleVoidDelimiter, HandleCommentDelimiter,
         HandleEscapeDelimiter, HandleEscapeDelimiterName, HandlePartDelimiter, HandleData, HandleLocked;
  }

  /** The states that read the character after the kind letter. */
  lemma StepDispatchTokens(s: Settings, p: Parser, c: char)
    requires Live(p)
    ensures p.state == ObjectDelimiter ==> Step(s, p, c) == HandleContainerDelimiter(s, p, c, false)
    ensures p.state == ArrayDelimiter ==> Step(s, p, c) == HandleContainerDelimiter(s, p, c, true)
    ensures p.state == DataDelimiter ==> Step(s, p, c) == HandleDataDelimiter(s, p, c)
    ensures p.state == InstructionDelimiter ==> Step(s, p, c) == HandleInstructionDelimiter(p, c)
    ensures p.state == VoidDelimiter ==> Step(s, p, c) == HandleVoidDelimiter(p, c)
    ensures p.state == CommentDelimiter ==> Step(s, p, c) == HandleCommentDelimiter(p, c)
    ensures p.state == PartDelimiter ==> Step(s, p, c) == HandlePartDelimiter(s, p, c)
    ensures p.state == EscapeDelimiterName ==> Step(s, p, c) == HandleEscapeDelimiterName(s, p, c)
  {
    hide HandleGoDelimiter, HandleStopDelimiter, HandleGo, HandleCollecting, HandleStart, HandleMaybeDelimiter,
         HandleDelimiter, HandleReservedDelimiter, HandleComment, HandleEscape, HandleInstructionDelimiter,
         HandleInstructionDelimiterName, HandleInstructionDelimiterArgs, HandleDataDelimiter, HandleDataDelimiterName,
         HandleDataDelimiterArgs, HandleContainerDelimiter, HandleVoidDelimiter, HandleCommentDelimiter,
         HandleEscapeDelimiter, HandleEscapeDelimiterName, HandlePartDelimiter, HandleData, HandleLocked;
  }

  /** The states that read a token's name or arguments, and the rest. */
  lemma StepDispatchNames(s: Settings, p: Parser, c: char)
    requires Live(p)
    ensures p.state == DataDelimiterName ==> Step(s, p, c) == HandleDataDelimiterName(s, p, c)
    ensures p.state == DataDelimiterArgs ==> Step(s, p, c) == HandleDataDelimiterArgs(s, p, c)
    ensures p.state == InstructionDelimiterName ==> Step(s, p, c) == HandleInstructionDelimiterName(s, p, c)
    ensures p.state == InstructionDelimiterArgs ==> Step(s, p, c) == HandleInstructionDelimiterArgs(s, p, c)
    ensures p.state == EscapeDelimiter ==> Step(s, p, c) == HandleEscapeDelimiter(p, c)
    ensures p.state == GoDelimiter ==> Step(s, p, c) == HandleGoDelimiter(s, p, c)
    ensures p.state == StopDelimiter ==> Step(s, p, c) == HandleStopDelimiter(s, p, c)
    ensures p.state == ReservedDelimiter ==> Step(s, p, c) == HandleReservedDelimiter(p, c)
  {
    hide HandleGoDelimiter, HandleStopDelimiter, HandleGo, HandleCollecting, HandleStart, HandleMaybeDelimiter,
         HandleDelimiter, HandleReservedDelimiter, HandleComment, HandleEscape, HandleInstructionDelimiter,
         HandleInstructionDelimiterName, HandleInstructionDelimiterArgs, HandleDataDelimiter, HandleDataDelimiterName,
         HandleDataDelimiterArgs, HandleContainerDelimiter, HandleVoidDelimiter, HandleCommentDelimiter,
         HandleEscapeDelimiter, HandleEscapeDelimiterName, HandlePartDelimiter, HandleData, HandleLocked;
  }

  /** In text, `[` starts a possible opening. */
  lemma TextBracket(s: Settings, p: Parser)
    requires Live(p) && p.state == DataState && !p.parsingLocked
    ensures Step(s, p, '[') == p.(state := MaybeDelimiter, delimiterBuffer := p.delimiterBuffer + "[")
  {
    hide Step;
    StepDispatch(s, p, '[');
  }

  /** In text, any other character is stored. */
  lemma TextChar(s: Settings, p: Parser, c: char)
    requires Live(p) && p.state == DataState && !p.parsingLocked && c != '['
    ensures Step(s, p, c) == StoreCurrentValue(s, p.(currentValue := p.currentValue + [c]))
  {
    hide Step;
    StepDispatch(s, p, c);
  }

  /** Text without `[` keeps the reader in the text state with its buffer. */
  lemma {:induction false} PlainTextKeepsBuffer(s: Settings, p: Parser, text: string)
    requires Live(p) && p.state == DataState && !p.parsingLocked
    requires forall i :: 0 <= i < |text| ==> text[i] != '['
    ensures Run(s, p, text).state == DataState && !Run(s, p, text).parsingLocked
    ensures Run(s, p, text).delimiterBuffer == p.delimiterBuffer
    decreases |text|
  {
    hide Step;
    if text != [] {
      var q := Run(s, p, text[..|text| - 1]);
      PlainTextKeepsBuffer(s, p, text[..|text| - 1]);
      TextChar(s, q, text[|text| - 1]);
      StoreKeepsReader(s, q.(currentValue := q.currentValue + [text[|text| - 1]]));
    }
  }

  /** A character that continues `[` + prefix is buffered; the token kind is
    * read next exactly when the whole opening is buffered. */
  lemma PrefixExtends(s: Settings, p: Parser, c: char)
    requires Live(p) && p.state == MaybeDelimiter
    requires |p.delimiterBuffer| < |OpenSubstring(s)| && c == OpenSubstring(s)[|p.delimiterBuffer|]
    ensures Step(s, p, c)
            == p.(delimiterBuffer := p.delimiterBuffer + [c],
                  state := if p.delimiterBuffer + [c] == OpenSubstring(s) then Delimiter else MaybeDelimiter)
  {
    hide Step;
    StepDispatch(s, p, c);
  }

  /** A character that does not continue `[` + prefix writes the buffered
    * part of the opening, and itself, into the pending text: the buffer is
    * empty again and the next `[` can start an opening. */
  lemma PrefixMismatchFlushes(s: Settings, p: Parser, c: char)
    requires Live(p) && p.state == MaybeDelimiter && |p.delimiterBuffer| <= |OpenSubstring(s)|
    requires !(|p.delimiterBuffer| < |OpenSubstring(s)| && c == OpenSubstring(s)[|p.delimiterBuffer|])
    ensures Step(s, p, c) == p.(currentValue := p.currentValue + p.delimiterBuffer + [c], delimiterBuffer := "",
                                currentDelimiter := None, state := DataState)
  {
    hide Step;
    StepDispatch(s, p, c);
  }

  /** From text with nothing buffered, reading `[` + prefix reaches the
    * state that reads the token kind, with the opening buffered and the
    * pending text untouched. */
  lemma {:induction false} OpeningRecognised(s: Settings, p: Parser)
    requires Live(p) && p.state == DataState && !p.parsingLocked && p.delimiterBuffer == "" && s.prefix != ""
    ensures Run(s, p, OpenSubstring(s)).state == Delimiter
    ensures Run(s, p, OpenSubstring(s)).delimiterBuffer == OpenSubstring(s)
    ensures Run(s, p, OpenSubstring(s)).currentValue == p.currentValue
    ensures Run(s, p, OpenSubstring(s)) == p.(state := Delimiter, delimiterBuffer := OpenSubstring(s))
  {
    hide Step;
    var open := OpenSubstring(s);
    var k := 1;
    assert open[..1] == [] + ['['];
    RunSnoc(s, p, [], '[');
    TextBracket(s, p);
    while k < |open| - 1
      invariant 1 <= k <= |open| - 1
      invariant Run(s, p, open[..k]) == p.(state := MaybeDelimiter, delimiterBuffer := open[..k])
    {
      assert open[..k + 1] == open[..k] + [open[k]];
      RunSnoc(s, p, open[..k], open[k]);
      PrefixExtends(s, Run(s, p, open[..k]), open[k]);
      k := k + 1;
    }
    assert open == open[..k] + [open[k]];
    RunSnoc(s, p, open[..k], open[k]);
    PrefixExtends(s, Run(s, p, open[..k]), open[k]);
  }

  /** A letter or digit that names no kind starts a reserved token. */
  lemma ReservedLetter(s: Settings, p: Parser, c: char)
    requires Live(p) && p.state == Delimiter && !p.parsingLocked && IsAlnum(c) && KindOf(c).None?
    ensures Step(s, p, c) == p.(currentDelimiter := Some(DelimiterData(None, None, [])), state := ReservedDelimiter,
                                delimiterBuffer := p.delimiterBuffer + [c])
  {
    hide Step;
    StepDispatch(s, p, c);
  }

  /** A reserved token ends at `]` and is dropped with the pending text;
    * any other character makes it text. */
  lemma ReservedClose(s: Settings, p: Parser, d: char)
    requires Live(p) && p.state == ReservedDelimiter && !p.parsingLocked
    ensures d == ']' ==> Step(s, p, d) == p.(delimiterBuffer := "", state := DataState, currentValue := "")
    ensures d != ']' ==> Step(s, p, d) == ExitIntoData(p, d)
  {
    hide Step;
    StepDispatchNames(s, p, d);
  }

  /** `[P` + a letter or digit that names no token kind: with `]` it is a
    * reserved token, dropped with the pending text and leaving no trace but
    * an empty current delimiter; with anything else the whole token is text. */
  lemma ReservedTokenDiscarded(s: Settings, p: Parser, c: char, d: char)
    requires Live(p) && p.state == DataState && !p.parsingLocked && p.delimiterBuffer == "" && s.prefix != ""
    requires IsAlnum(c) && KindOf(c).None?
    ensures Run(s, p, OpenSubstring(s) + [c, ']']) == p.(currentDelimiter := Some(DelimiterData(None, None, [])), currentValue := "")
    ensures d != ']' ==> Run(s, p, OpenSubstring(s) + [c, d]) == p.(currentDelimiter := None, currentValue := p.currentValue + OpenSubstring(s) + [c, d])
  {
    hide Step;
    var open := OpenSubstring(s);
    OpeningRecognised(s, p);
    RunSnoc(s, p, open, c);
    ReservedLetter(s, Run(s, p, open), c);
    var q := Run(s, p, open + [c]);
    ReservedClose(s, q, ']');
    ReservedClose(s, q, d);
    assert open + [c, ']'] == (open + [c]) + [']'];
    assert open + [c, d] == (open + [c]) + [d];
    RunSnoc(s, p, open + [c], ']');
    RunSnoc(s, p, open + [c], d);
  }

  /** A kind letter after a complete opening selects that token's state
    * and records the kind in the history. */
  lemma KindLetterOpens(s: Settings, p: Parser, c: char)
    requires Live(p) && p.state == Delimiter && !p.parsingLocked && KindOf(c).Some?
    ensures Step(s, p, c) == p.(currentDelimiter := Some(DelimiterData(KindOf(c), None, [])), state := DelimiterStateFor(KindOf(c).value),
                                delimiterBuffer := p.delimiterBuffer + [c],
                                recentDelimiters := History.Added(p.recentDelimiters, KindOf(c).value, RecentCapacity))
  {
    hide Step;
    StepDispatch(s, p, c);
  }

  /** `]` after `[Pc` outside an escape region enters the comment. */
  lemma CommentClose(s: Settings, p: Parser)
    requires Live(p) && p.state == CommentDelimiter && !p.parsingLocked && !EscapeActive(p.currentEscapeDelimiter)
    ensures Step(s, p, ']') == p.(state := CommentState, delimiterBuffer := "", currentValue := "")
  {
    hide Step;
    StepDispatchTokens(s, p, ']');
  }

  /** `[Pc]` from text enters a comment: the pending text is dropped and
    * nothing else changes but the delimiter history. */
  lemma CommentTokenOpens(s: Settings, p: Parser)
    requires Live(p) && p.state == DataState && !p.parsingLocked && p.delimiterBuffer == "" && s.prefix != ""
    requires !EscapeActive(p.currentEscapeDelimiter)
    ensures Run(s, p, OpenSubstring(s) + "c]")
            == p.(state := CommentState, currentValue := "", currentDelimiter := Some(DelimiterData(Some(Comment), None, [])),
                  recentDelimiters := History.Added(p.recentDelimiters, Comment, RecentCapacity))
  {
    hide Step;
    var open := OpenSubstring(s);
    OpeningRecognised(s, p);
    RunSnoc(s, p, open, 'c');
    KindLetterOpens(s, Run(s, p, open), 'c');
    assert open + "c]" == (open + ['c']) + [']'];
    RunSnoc(s, p, open + ['c'], ']');
    CommentClose(s, Run(s, p, open + ['c']));
  }

  /** Inside a comment, text without `[` changes nothing at all. */
  lemma {:induction false} CommentDropsText(s: Settings, p: Parser, text: string)
    requires Live(p) && p.state == CommentState && !p.parsingLocked
    requires forall i | 0 <= i < |text| :: text[i] != '['
    ensures Run(s, p, text) == p
    decreases |text|
  {
    hide Step;
    if text != [] {
      var init := text[..|text| - 1];
      CommentDropsText(s, p, init);
      assert text == init + [text[|text| - 1]];
      RunSnoc(s, p, init, text[|text| - 1]);
      StepDispatch(s, p, text[|text| - 1]);
    }
  }

  /** A `[` followed by a character that does not continue the prefix (as
    * in `[Your name]`) is kept as text, and a token after more text without
    * `[` is still recognised. */
  lemma PrefixMismatchKeepsTokens(s: Settings, p: Parser, c: char, middle: string)
    requires Live(p) && p.state == DataState && !p.parsingLocked && p.delimiterBuffer == ""
    requires |s.prefix| > 0 && c != s.prefix[0]
    requires forall i :: 0 <= i < |middle| ==> middle[i] != '['
    ensures Run(s, p, ['[', c]).currentValue == p.currentValue + ['[', c]
    ensures Run(s, p, ['[', c] + middle + OpenSubstring(s)).state == Delimiter
  {
    hide Step;
    var open := OpenSubstring(s);
    assert open[1] == s.prefix[0];
    RunSnoc(s, p, [], '[');
    assert [] + ['['] == ['['];
    TextBracket(s, p);
    var p0 := Run(s, p, ['[']);
    RunSnoc(s, p, ['['], c);
    assert ['['] + [c] == ['[', c];
    PrefixMismatchFlushes(s, p0, c);
    var p1 := Run(s, p, ['[', c]);
    assert p1.state == DataState && p1.delimiterBuffer == "" && !p1.parsingLocked;
    RunAppend(s, p, ['[', c], middle);
    PlainTextKeepsBuffer(s, p1, middle);
    var p2 := Run(s, p, ['[', c] + middle);
    RunAppend(s, p, ['[', c] + middle, open);
    OpeningRecognised(s, p2);
  }

  // With the empty prefix the opening is `[` alone, but only the branch of
  // the maybe-delimiter handler that extends the buffer can complete an
  // opening, and it compares the character after `[` with the prefix's
  // first character, which does not exist. So no token is ever read.

  /** With the empty prefix, `[` and any character are flushed into the text. */
  lemma EmptyPrefixBracket(s: Settings, p: Parser, c: char)
    requires Live(p) && p.state == DataState && !p.parsingLocked && p.delimiterBuffer == "" && s.prefix == ""
    ensures Run(s, p, ['[', c]) == p.(currentValue := p.currentValue + ['[', c], delimiterBuffer := "",
                                      currentDelimiter := None, state := DataState)
  {
    hide Step;
    assert [] + ['['] == ['['];
    RunSnoc(s, p, [], '[');
    TextBracket(s, p);
    assert ['['] + [c] == ['[', c];
    RunSnoc(s, p, ['['], c);
    PrefixMismatchFlushes(s, Run(s, p, ['[']), c);
  }

  /** The reader is in text with nothing buffered, or holds the `[` of an
    * opening that the empty prefix cannot complete. */
  predicate EmptyPrefixReading(s: Settings, p: Parser)
  {
    Live(p) && !p.parsingLocked && s.prefix == ""
    && ((p.state == DataState && p.delimiterBuffer == "") || (p.state == MaybeDelimiter && p.delimiterBuffer == "["))
  }

  lemma EmptyPrefixStep(s: Settings, p: Parser, c: char)
    requires EmptyPrefixReading(s, p)
    ensures EmptyPrefixReading(s, Step(s, p, c))
  {
    hide Step, StoreCurrentValue;
    if p.state == DataState {
      if c == '[' {
        TextBracket(s, p);
      } else {
        TextChar(s, p, c);
        StoreKeepsReader(s, p.(currentValue := p.currentValue + [c]));
      }
    } else {
      PrefixMismatchFlushes(s, p, c);
    }
  }

  /** With the empty prefix, no input read from text reaches the state that
    * reads a token's kind letter. */
  lemma {:induction false} EmptyPrefixNeverOpens(s: Settings, p: Parser, input: string)
    requires Live(p) && p.state == DataState && !p.parsingLocked && p.delimiterBuffer == "" && s.prefix == ""
    ensures EmptyPrefixReading(s, Run(s, p, input))
    ensures Run(s, p, input).state != Delimiter
    decreases |input|
  {
    hide Step;
    if input != [] {
      var init := input[..|input| - 1];
      EmptyPrefixNeverOpens(s, p, init);
      EmptyPrefixStep(s, Run(s, p, init), input[|input| - 1]);
      assert input == init + [input[|input| - 1]];
      RunSnoc(s, p, init, input[|input| - 1]);
    }
  }

  /** The text of a field that reads `[Your name].` followed by a part
    * token: the `[Y` is kept as text, and after `[Your name].[aslan` the
    * decoder reads the kind letter of the token that follows. */
  lemma DelimiterLikeTextKeepsNextToken(p: Parser)
    requires Live(p) && p.state == DataState && !p.parsingLocked && p.delimiterBuffer == ""
    ensures Run(DefaultSettings, p, "[Y").currentValue == p.currentValue + "[Y"
    ensures Run(DefaultSettings, p, "[Your name].[aslan").state == Delimiter
  {
    hide Step;
    var middle := "our name].";
    assert "[Your name].[aslan" == ['[', 'Y'] + middle + OpenSubstring(DefaultSettings);
    assert "[Y" == ['[', 'Y'];
    PrefixMismatchKeepsTokens(DefaultSettings, p, 'Y', middle);
  }

  /** While locked, only `[` is looked at. */
  lemma LockedIgnoresText(s: Settings, p: Parser, c: char)
    requires Live(p) && p.state == Locked && c != '['
    ensures Step(s, p, c) == p
  {
    hide Step;
    StepDispatch(s, p, c);
  }

  /** The kind letter: a known one starts that token and becomes the most
    * recent delimiter; any other letter or digit starts a reserved token;
    * anything else makes the opening text. A locked parser (not under
    * strict start) finds only GO. */
  lemma KindLetter(s: Settings, p: Parser, c: char)
    requires Live(p) && p.state == Delimiter
    ensures var r := Step(s, p, c);
            p.parsingLocked && c != 'g' && !s.strictStart ==> r == p.(state := Locked)
    ensures var r := Step(s, p, c);
            !(p.parsingLocked && c != 'g' && !s.strictStart) && KindOf(c).Some? ==>
              r.state == DelimiterStateFor(KindOf(c).value)
              && r.recentDelimiters == History.Added(p.recentDelimiters, KindOf(c).value, RecentCapacity)
              && r.recentDelimiters[0] == KindOf(c).value
              && r.delimiterBuffer == p.delimiterBuffer + [c]
    ensures var r := Step(s, p, c);
            !(p.parsingLocked && c != 'g' && !s.strictStart) && KindOf(c).None? ==>
              r.recentDelimiters == p.recentDelimiters
              && (IsAlnum(c) ==> r.state == ReservedDelimiter)
              && (!IsAlnum(c) ==> r == ExitIntoData(p, c))
  {
    hide Step;
    StepDispatch(s, p, c);
  }

  // ---------------------------------------------------------------------
  // Escapes.
  // ---------------------------------------------------------------------

  /** While an escape region is open, the tokens that would change the
    * structure (containers, data, instructions, void, comments, parts) are
    * text. */
  lemma EscapedTokensAreText(s: Settings, p: Parser, c: char)
    requires Live(p) && !p.parsingLocked && EscapeActive(p.currentEscapeDelimiter)
    requires p.state in {ObjectDelimiter, ArrayDelimiter, DataDelimiter, InstructionDelimiter, VoidDelimiter, CommentDelimiter, PartDelimiter}
    ensures Step(s, p, c) == ExitIntoData(p, c)
  {
    hide Step;
    StepDispatchTokens(s, p, c);
  }

  /** A complete escape token opens a region when none is open, closes the
    * region of the same name, and leaves another region open, its own text
    * stored as text of the field. */
  lemma EscapeRegions(s: Settings, p: Parser, name: string)
    requires Live(p)
    ensures p.currentEscapeDelimiter.None?
            ==> EndEscapeName(s, p, name).currentEscapeDelimiter == Some(name) && EndEscapeName(s, p, name).state == EscapeState
    ensures p.currentEscapeDelimiter == Some(name)
            ==> EndEscapeName(s, p, name).currentEscapeDelimiter == None && EndEscapeName(s, p, name).state == DataState
    ensures p.currentEscapeDelimiter.Some? && p.currentEscapeDelimiter.value != name
            ==> EndEscapeName(s, p, name).currentEscapeDelimiter == p.currentEscapeDelimiter
                && EndEscapeName(s, p, name).state == DataState && EndEscapeName(s, p, name).currentValue == "]"
  {
    hide StoreCurrentValue;
    if p.currentEscapeDelimiter.Some? && p.currentEscapeDelimiter.value != name {
      var p1 := p.(state := EscapeState, delimiterBuffer := "", currentValue := "[" + s.prefix + "e_" + name);
      StoreKeepsReader(s, p1);
    }
  }

  /** `[Pe_]` with an empty name: here it opens an escape region in which
    * the structural tokens are text; the TypeScript decoder, whose test is
    * the truthiness of the name, takes the same name as no region. */
  lemma EmptyEscapeNameOpensRegion(s: Settings, p: Parser)
    requires Live(p) && p.currentEscapeDelimiter.None? && p.state == EscapeDelimiterName
    requires !p.parsingLocked && p.currentDelimiter.Some? && p.currentDelimiter.value.content == Some("")
    ensures Step(s, p, ']').currentEscapeDelimiter == Some("")
    ensures EscapeActive(Step(s, p, ']').currentEscapeDelimiter)
    ensures !AslanTsSpec.EscapeActive(Step(s, p, ']').currentEscapeDelimiter)
  {
    hide Step, EndEscapeName;
    StepDispatchTokens(s, p, ']');
    EscapeRegions(s, p, "");
  }

  // ---------------------------------------------------------------------
  // Objects and arrays.
  // ---------------------------------------------------------------------

  /** The source's conditions for a complete `[Po]` or `[Pa]` to open a
    * container: the second most recent material delimiter is DATA and the
    * field is not safe to keep or already holds an object or array; or the
    * key was seen before. */
  predicate Opens(s: Settings, p: Parser)
    requires Live(p)
  {
    DataOpens(s, p) || KeyName(p) in Top(p).alreadySeen
  }

  /** The first of those conditions, under which the seen flag is kept. */
  predicate DataOpens(s: Settings, p: Parser)
    requires Live(p)
  {
    SecondMaterial(p.recentDelimiters) == Some(Data) && (!ObjectSafeLatest(s, p) || FieldIsContainer(p))
  }

  /** The state after the closing `]` of a container token, before the
    * action. */
  function AfterContainerToken(p: Parser, isArray: bool): (r: Parser)
  {
    p.(state := if isArray then ArrayState else ObjectState, delimiterBuffer := "")
  }

  lemma ContainerTokenApplies(s: Settings, p: Parser, isArray: bool)
    requires Live(p) && p.state == (if isArray then ArrayDelimiter else ObjectDelimiter)
    requires !p.parsingLocked && !EscapeActive(p.currentEscapeDelimiter)
    ensures Step(s, p, ']') == ApplyContainerAction(s, AfterContainerToken(p, isArray), ContainerActionOf(s, p), isArray)
  {
    hide Step, ApplyContainerAction, ContainerActionOf;
    StepDispatchTokens(s, p, ']');
  }

  /** `create_new_object()` / `create_new_array()`: the parent frame gets an
    * empty container at its key and a frame for it is pushed. */
  lemma CreateNewShape(s: Settings, p: Parser, isArray: bool)
    requires Live(p)
    ensures var r := CreateNew(s, p, isArray); var empty := if isArray then Arr([]) else Obj(map[]);
            |r.stack| == |p.stack| + 1
            && Top(r) == EmptyFrame(empty, if isArray then Index(-1) else Name(s.defaultFieldName))
            && r.stack[|p.stack| - 1] == Place(Top(p), empty)
            && r.stack[..|p.stack| - 1] == p.stack[..|p.stack| - 1]
  {
    var empty := if isArray then Arr([]) else Obj(map[]);
    if Writable(Top(p).container, CurrentKey(p)) {
      PutGet(Top(p).container, CurrentKey(p), empty);
    }
  }

  /** A complete `[Po]` or `[Pa]` opens a container exactly when `Opens`
    * holds: the new top frame holds an empty container of the token's kind
    * and the parent frame holds one at its key; the seen flag of the key is
    * cleared when only the seen flag made it open. */
  lemma ContainerTokenOpens(s: Settings, p: Parser, isArray: bool)
    requires Live(p) && p.state == (if isArray then ArrayDelimiter else ObjectDelimiter)
    requires !p.parsingLocked && !EscapeActive(p.currentEscapeDelimiter) && Opens(s, p)
    ensures var r := Step(s, p, ']'); var empty := if isArray then Arr([]) else Obj(map[]);
            |r.stack| == |p.stack| + 1
            && Top(r) == EmptyFrame(empty, if isArray then Index(-1) else Name(s.defaultFieldName))
            && r.stack[|p.stack| - 1].container == Put(Top(p).container, CurrentKey(p), empty)
            && r.stack[|p.stack| - 1].alreadySeen == (if DataOpens(s, p) then Top(p).alreadySeen else Top(p).alreadySeen - {KeyName(p)})
            && r.stack[..|p.stack| - 1] == p.stack[..|p.stack| - 1]
  {
    hide Step, CreateNew, ObjectSafeLatest;
    ContainerTokenApplies(s, p, isArray);
    var action := ContainerActionOf(s, p);
    OpensIff(ObjectSafeLatest(s, p), FieldIsContainer(p), SecondMaterial(p.recentDelimiters) == Some(Data),
             KeyName(p) in Top(p).alreadySeen, |p.stack|);
    var q := AfterContainerToken(p, isArray);
    if action == Open {
      CreateNewShape(s, q, isArray);
    } else {
      assert action == ClearSeenAndOpen;
      CreateNewShape(s, WithTop(q, Top(q).(alreadySeen := Top(q).alreadySeen - {KeyName(q)})), isArray);
    }
  }

  /** Otherwise the current frame closes, after its end events and the copy
    * down to the root; with only the root open nothing changes. */
  lemma ContainerTokenCloses(s: Settings, p: Parser, isArray: bool)
    requires Live(p) && p.state == (if isArray then ArrayDelimiter else ObjectDelimiter)
    requires !p.parsingLocked && !EscapeActive(p.currentEscapeDelimiter) && !Opens(s, p)
    ensures |p.stack| > 1 ==> Step(s, p, ']') == CloseFrame(s, AfterContainerToken(p, isArray))
    ensures |p.stack| > 1 ==> |Step(s, p, ']').stack| == |p.stack| - 1
    ensures |p.stack| == 1 ==> Step(s, p, ']') == AfterContainerToken(p, isArray)
  {
    hide Step, CloseFrame;
    ContainerTokenApplies(s, p, isArray);
    assert ContainerActionOf(s, p) == ContainerDecision(ObjectSafeLatest(s, p), FieldIsContainer(p), SecondMaterial(p.recentDelimiters) == Some(Data),
                                                        KeyName(p) in Top(p).alreadySeen, |p.stack|);
    OpensIff(ObjectSafeLatest(s, p), FieldIsContainer(p), SecondMaterial(p.recentDelimiters) == Some(Data),
             KeyName(p) in Top(p).alreadySeen, |p.stack|);
  }

  /** Closing a frame pops it after copying it into its parent: the parent,
    * now on top, holds the closed container at its key. */
  lemma CloseFrameKeepsContainer(s: Settings, p: Parser)
    requires |p.stack| > 1
    ensures var r := CloseFrame(s, p); var n := |p.stack|;
            Top(r) == p.stack[n - 2].(container := Put(p.stack[n - 2].container, p.stack[n - 2].currentKey, Top(p).container))
  {
    hide EmitEnd, EmitEndData;
    var q := EmitEndData(s, EmitEnd(s, p));
    assert q.stack == p.stack;
    SyncFromShape(p.stack, |p.stack| - 1);
  }

  // ---------------------------------------------------------------------
  // Keys and insertion types.
  // ---------------------------------------------------------------------

  /** In an array frame the key is always an index below the next automatic
    * one: a name that reads as an `i64` selects that index, any other name
    * (and no name) takes the next automatic one. In an object frame any
    * name, the empty one too, becomes the key, flagged as seen when the
    * object has it already; with no name nothing changes. */
  lemma NextKeyRules(s: Settings, p: Parser)
    requires Live(p)
    ensures var r := NextKey(s, p); var f := Top(p);
            f.container.Arr? ==>
              CurrentKey(r).Index? && CurrentKey(r).i < Top(r).minArrayIndex
              && Top(r).minArrayIndex >= f.minArrayIndex && Top(r).container == f.container
    ensures var r := NextKey(s, p); var f := Top(p); var content := DelimOf(p.currentDelimiter).content;
            f.container.Arr? && content.Some? && Decimal.ParseI64Strict(content.value).Some? ==>
              CurrentKey(r) == Index(Decimal.ParseI64Strict(content.value).value)
    ensures var r := NextKey(s, p); var f := Top(p); var content := DelimOf(p.currentDelimiter).content;
            f.container.Arr? && !(content.Some? && Decimal.ParseI64Strict(content.value).Some?) ==>
              CurrentKey(r) == Index(f.minArrayIndex) && Top(r).minArrayIndex == f.minArrayIndex + 1
    ensures var r := NextKey(s, p); var f := Top(p); var content := DelimOf(p.currentDelimiter).content;
            !f.container.Arr? && content.Some? ==>
              CurrentKey(r) == Name(content.value)
              && (content.value in Top(r).alreadySeen <==> content.value in f.alreadySeen || (f.container.Obj? && content.value in f.container.fields))
    ensures !Top(p).container.Arr? && DelimOf(p.currentDelimiter).content.None? ==> NextKey(s, p) == p
    ensures NextKey(s, p).stack[..|p.stack| - 1] == p.stack[..|p.stack| - 1]
  {
  }

  /** `[Pd_]`, an empty data name, selects the key `""` in an object frame;
    * the TypeScript decoder ignores an empty name. */
  lemma EmptyDataNameSelectsEmptyKey(s: Settings, p: Parser)
    requires Live(p) && p.state == DataDelimiterName && !p.parsingLocked
    requires p.currentDelimiter == Some(DelimiterData(Some(Data), Some(""), [])) && !Top(p).container.Arr?
    ensures CurrentKey(Step(s, p, ']')) == Name("")
  {
    hide Step, EmitEnd, EmitEndData, StoreCurrentValue;
    StepDispatchNames(s, p, ']');
    var q := EmitEndData(s, EmitEnd(s, p.(state := DataState)));
    assert q.stack == p.stack && q.currentDelimiter == p.currentDelimiter;
    var q1 := NextKey(s, q);
    assert CurrentKey(q1) == Name("");
    var q2 := SetDataInsertionType(q1.(delimiterBuffer := ""), Default);
    assert CurrentKey(q2) == Name("");
    if RepeatsText(q2, false) {
      StoreKeepsReader(s, q2.(currentValue := s.appendSeparator));
    }
  }

  /** The first occurrence of a key in a frame fixes its insertion type; a
    * repeated KEEP_LAST key is emptied (in an object) and loses its
    * instructions, the others being kept; a repeated KEEP_FIRST key is
    * locked; nothing else changes. */
  lemma InsertionPolicy(p: Parser, t: InsertionType)
    requires Live(p)
    ensures var key := KeyName(p); var f := Top(p); var r := SetDataInsertionType(p, t);
            Top(r).insertionTypes == (if key in f.insertionTypes then f.insertionTypes else f.insertionTypes[key := t])
            && Top(r).locks == (if key in f.insertionTypes && f.insertionTypes[key] == KeepFirst then f.locks + {key} else f.locks)
            && Top(r).currentKey == f.currentKey
            && r.stack[..|p.stack| - 1] == p.stack[..|p.stack| - 1] && r == p.(stack := r.stack)
    ensures var key := KeyName(p); var f := Top(p); var r := SetDataInsertionType(p, t);
            !(key in f.insertionTypes && f.insertionTypes[key] == KeepLast) ==>
              Top(r).container == f.container && Top(r).instructions == f.instructions
    ensures var key := KeyName(p); var f := Top(p); var r := SetDataInsertionType(p, t);
            key in f.insertionTypes && f.insertionTypes[key] == KeepLast ==>
              (f.container.Obj? ==> Latest(r) == Some(Str("")))
              && (forall i :: 0 <= i < |Top(r).instructions| ==> Top(r).instructions[i].key != key)
              && (forall i :: 0 <= i < |f.instructions| && f.instructions[i].key != key ==> f.instructions[i] in Top(r).instructions)
  {
    hide WithoutKey;
  }

  // ---------------------------------------------------------------------
  // Parts.
  // ---------------------------------------------------------------------

  /** `[Pp]` on an unlocked field: a missing, `null` or empty field becomes
    * `[""]`, a string `s` becomes `[s, ""]`, both now implicit arrays; an
    * array gets one more empty part. A locked field is left alone. */
  lemma AddPartShapes(s: Settings, p: Parser)
    requires Live(p)
    ensures KeyName(p) in Top(p).locks ==> AddPart(s, p) == p
    ensures var v := Latest(p); var r := AddPart(s, p);
            KeyName(p) !in Top(p).locks && Writable(Top(p).container, CurrentKey(p)) ==>
              CurrentKey(r) == CurrentKey(p)
              && (Falsy(v) ==> Latest(r) == Some(Arr([Str("")])) && KeyName(p) in Top(r).implicitArrays)
              && (!Falsy(v) && v.value.Str? ==> Latest(r) == Some(Arr([v.value, Str("")])) && KeyName(p) in Top(r).implicitArrays)
              && (!Falsy(v) && v.value.Arr? ==> Latest(r) == Some(Arr(v.value.elems + [Str("")])))
  {
    hide EmitEnd, SetValueAtKey, SyncStackToRoot;
    var key := KeyName(p);
    var v := Latest(p);
    if key !in Top(p).locks && Writable(Top(p).container, CurrentKey(p)) {
      if Falsy(v) {
        var q := WithTop(p, Top(p).(implicitArrays := Top(p).implicitArrays + {key}));
        SetValueAtKeyMeaning(q, Arr([Str("")]));
      } else if v.value.Str? {
        var q := WithTop(p, Top(p).(implicitArrays := Top(p).implicitArrays + {key}));
        SetValueAtKeyMeaning(q, Arr([v.value, Str("")]));
      } else if v.value.Arr? {
        var q := EmitEnd(s, p);
        assert q.stack == p.stack;
        var q1 := WithTop(q, Top(q).(container := PushAt(Top(q).container, CurrentKey(q), Str(""))));
        SyncStackToRootMeaning(q1);
        assert PropertyName(Name(KeyName(p))) == KeyName(p);
      }
    }
  }

  // ---------------------------------------------------------------------
  // Instructions and end-data events.
  // ---------------------------------------------------------------------

  /** A complete instruction token registers one instruction for the current
    * key unless the key is KEEP_FIRST and was seen before in this frame. */
  lemma InstructionRegistered(s: Settings, p: Parser, at: Indices)
    requires Live(p)
    ensures var key := KeyName(p); var f := Top(p); var r := CompleteInstruction(s, p, at);
            (key !in f.alreadySeen || !(key in f.insertionTypes && f.insertionTypes[key] == KeepFirst)) ==>
              Top(r) == f.(instructions := f.instructions + [Registered(key, ContentOf(p.currentDelimiter), at.index, ArgsOf(p.currentDelimiter), at.partIndex)])
              && r.stack[..|p.stack| - 1] == p.stack[..|p.stack| - 1] && p.events <= r.events
    ensures var key := KeyName(p); var f := Top(p);
            key in f.alreadySeen && key in f.insertionTypes && f.insertionTypes[key] == KeepFirst ==> CompleteInstruction(s, p, at) == p
  {
    hide EmitPrimitive, EmitImplicit;
  }

  /** The position recorded for an instruction: the end of the field's text,
    * or of the last part of an implicit array, with that part's index (0
    * for an empty array, where the TypeScript decoder throws and registers
    * nothing). */
  lemma InstructionPosition(v: Option<Value>)
    ensures v.Some? && v.value.Str? ==> InstructionIndices(v) == Indices(|v.value.s|, 0)
    ensures v.Some? && v.value.Arr? && v.value.elems != [] && v.value.elems[|v.value.elems| - 1].Str? ==>
              InstructionIndices(v) == Indices(|v.value.elems[|v.value.elems| - 1].s|, |v.value.elems| - 1)
    ensures v == Some(Arr([])) ==> InstructionIndices(v) == Indices(0, 0)
    ensures AslanTsSpec.InstructionIndices(Arr([])).None?
  {
  }

  /** The instructions of `key` registered at part `k`, in registration
    * order. */
  function OnPart(instrs: seq<Registered>, key: string, k: nat): (r: seq<InstructionInfo>)
    decreases |instrs|
  {
    if instrs == [] then []
    else
      var ins := instrs[|instrs| - 1];
      OnPart(instrs[..|instrs| - 1], key, k) + (if ins.key == key && ins.partIndex == k then [Info(ins)] else [])
  }

  /** Grouping keeps, for each part index, exactly the instructions of the
    * key registered at that part, in order; a part without any has no
    * group. */
  lemma {:induction false} GroupByPartFilters(instrs: seq<Registered>, key: string, k: nat)
    ensures (if k in GroupByPart(instrs, key) then GroupByPart(instrs, key)[k] else []) == OnPart(instrs, key, k)
    ensures k in GroupByPart(instrs, key) ==> OnPart(instrs, key, k) != []
    decreases |instrs|
  {
    if instrs != [] {
      GroupByPartFilters(instrs[..|instrs| - 1], key, k);
    }
  }

  /** The instructions of the end-data event of a text field are exactly
    * those registered for its key. */
  lemma {:induction false} KeyInfosFilters(instrs: seq<Registered>, key: string)
    ensures forall x :: x in KeyInfos(instrs, key) <==> exists i :: 0 <= i < |instrs| && instrs[i].key == key && Info(instrs[i]) == x
    decreases |instrs|
  {
    if instrs != [] {
      var init := instrs[..|instrs| - 1];
      KeyInfosFilters(init, key);
      forall x
        ensures x in KeyInfos(instrs, key) <==> exists i :: 0 <= i < |instrs| && instrs[i].key == key && Info(instrs[i]) == x
      {
        if x in KeyInfos(init, key) {
          var i :| 0 <= i < |init| && init[i].key == key && Info(init[i]) == x;
          assert instrs[i] == init[i];
        }
        if exists i :: 0 <= i < |instrs| && instrs[i].key == key && Info(instrs[i]) == x {
          var i :| 0 <= i < |instrs| && instrs[i].key == key && Info(instrs[i]) == x;
          if i < |init| {
            assert init[i] == instrs[i];
          }
        }
      }
    }
  }

  /** The end-data event of an implicit array has one part per element, each
    * with the text of the element and exactly the instructions of the key
    * registered at that part. */
  lemma EndDataParts(s: Settings, p: Parser)
    requires Live(p) && KeyName(p) in Top(p).implicitArrays
    ensures var e := EndDataEventOf(s, p);
            e.Some? && |e.value.parts| == |AsArr(Latest(p))|
            && forall i :: 0 <= i < |e.value.parts| ==>
                 e.value.parts[i].value == AsStr(Some(AsArr(Latest(p))[i])) && e.value.parts[i].partIndex == i
                 && e.value.parts[i].instructions == OnPart(Top(p).instructions, KeyName(p), i)
  {
    hide GroupByPart;
    var g := GroupByPart(Top(p).instructions, KeyName(p));
    forall i: nat | i < |AsArr(Latest(p))|
      ensures (if i in g then g[i] else []) == OnPart(Top(p).instructions, KeyName(p), i)
    {
      GroupByPartFilters(Top(p).instructions, KeyName(p), i);
    }
  }

  // ---------------------------------------------------------------------
  // Documents.
  // ---------------------------------------------------------------------

  /** Closing keeps the earlier documents and makes the last one the
    * assembled root. */
  lemma CloseKeepsDocuments(s: Settings, p: Parser)
    requires Live(p)
    ensures var r := AslanRsSpec.Close(s, p);
            SameReader(r, p) && |r.results| == |p.results|
            && (p.results != [] ==> r.results[..|p.results| - 1] == p.results[..|p.results| - 1])
            && (p.results != [] ==> r.results[|p.results| - 1] == r.stack[0].container)
  {
    hide EmitEnd, EmitEndData, StoreCurrentValue, SyncStackToRoot;
    var q := EmitEndData(s, EmitEnd(s, p));
    StoreKeepsReader(s, q);
    SyncStackToRootMeaning(StoreCurrentValue(s, q));
  }

  /** Starting the next document keeps every earlier result (the closed
    * document included) and appends a fresh root object. */
  lemma NextDocumentResults(s: Settings, p: Parser)
    requires Live(p)
    ensures NextDocument(s, p).results == AslanRsSpec.Close(s, p).results + [RootFrame(s).container]
    ensures NextDocument(s, p).stack == [RootFrame(s)]
    ensures MultiAslanIndex(NextDocument(s, p)) == |AslanRsSpec.Close(s, p).results|
  {
    hide AslanRsSpec.Close;
  }

  /** `[Pg]` unlocks parsing; under strict start, and not right after a
    * STOP, it starts a new document. */
  lemma GoToken(s: Settings, p: Parser)
    requires Live(p)
    ensures !EndGoDelimiter(s, p).parsingLocked && !EndGoDelimiter(s, p).didStop && EndGoDelimiter(s, p).state == GoState
    ensures s.strictStart && !p.didStop ==>
              EndGoDelimiter(s, p).results == AslanRsSpec.Close(s, p.(state := GoState, delimiterBuffer := "", currentValue := "", parsingLocked := false)).results + [RootFrame(s).container]
    ensures !(s.strictStart && !p.didStop) ==> EndGoDelimiter(s, p).stack == p.stack && EndGoDelimiter(s, p).results == p.results
  {
    hide AslanRsSpec.Close;
    var p1 := p.(state := GoState, delimiterBuffer := "", currentValue := "", parsingLocked := false);
    if s.strictStart && !p.didStop {
      NextDocumentResults(s, p1);
      CloseKeepsDocuments(s, p1);
    }
  }

  /** `[Ps]` under strict end closes the document and starts the next;
    * under strict start as well, parsing is locked until the next `[Pg]`. */
  lemma StopToken(s: Settings, p: Parser)
    requires Live(p)
    ensures s.strictEnd ==> EndStopDelimiter(s, p).state == Start && EndStopDelimiter(s, p).didStop
    ensures s.strictEnd ==> (EndStopDelimiter(s, p).parsingLocked <==> s.strictStart || p.parsingLocked)
    ensures s.strictEnd ==> EndStopDelimiter(s, p).stack == [RootFrame(s)]
    ensures !s.strictEnd ==> EndStopDelimiter(s, p) == p.(state := StopState, delimiterBuffer := "", currentValue := "")
  {
    hide AslanRsSpec.Close;
    var p1 := p.(state := StopState, delimiterBuffer := "", currentValue := "");
    if s.strictEnd {
      var p2 := if s.strictStart then p1.(parsingLocked := true) else p1;
      CloseKeepsDocuments(s, p2);
    }
  }
}
