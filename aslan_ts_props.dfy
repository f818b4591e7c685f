// Properties of the TypeScript decoder, stated on the functions of
// AslanTsSpec that the class in AslanTs is proved against.
module AslanTsProps {
  import opened Wrappers
  import opened AslanCommon
  import opened AslanTsSpec
  import History
  import Decimal

  // ---------------------------------------------------------------------
  // Recognising `[` + prefix.
  // ---------------------------------------------------------------------

  /** The fields that decide how the next character is read, and those
    * that record the documents and the insertion policy. */
  predicate SameReader(p: Parser, q: Parser)
  {
    p.state == q.state && p.delimiterBuffer == q.delimiterBuffer && p.parsingLocked == q.parsingLocked
    && p.currentEscapeDelimiter == q.currentEscapeDelimiter && p.currentDelimiter == q.currentDelimiter
    && p.finished == q.finished && p.rootListed == q.rootListed && p.didStop == q.didStop
    && p.dataInsertionTypes == q.dataInsertionTypes && p.dataInsertionLocks == q.dataInsertionLocks
  }

  lemma StartStringKeepsReader(p: Parser)
    requires Live(p)
    ensures SameReader(StartString(p), p) && StartString(p).recentDelimiters == p.recentDelimiters
    ensures StartString(p).currentValue == p.currentValue && |StartString(p).stack| == |p.stack|
  {
  }

  lemma StorePrimitiveKeepsReader(s: Settings, p: Parser)
    requires Live(p)
    ensures SameReader(StorePrimitive(s, p), p) && StorePrimitive(s, p).recentDelimiters == p.recentDelimiters
    ensures |StorePrimitive(s, p).stack| == |p.stack|
  {
    hide ContentEvents, PathOf, Put, Get;
  }

  lemma AppendToLastPartKeepsReader(s: Settings, p: Parser)
    requires Live(p)
    ensures SameReader(AppendToLastPart(s, p), p) && AppendToLastPart(s, p).recentDelimiters == p.recentDelimiters
    ensures |AppendToLastPart(s, p).stack| == |p.stack|
  {
    hide EmitImplicit, SetLatest, JsText;
    if Latest(p).Arr? && Latest(p).elems != [] {
      var xs := Latest(p).elems;
      var last := |xs| - 1;
      var q := SetLatest(p, Arr(xs[last := Str(JsText(xs[last]) + p.currentValue)]));
      assert SameReader(q, p);
      assert SameReader(EmitImplicit(s, q, ContentTag), q);
    }
  }

  lemma StoreImplicitKeepsReader(s: Settings, p: Parser)
    requires Live(p)
    ensures SameReader(StoreImplicit(s, p), p) && StoreImplicit(s, p).recentDelimiters == p.recentDelimiters
    ensures |StoreImplicit(s, p).stack| == |p.stack|
  {
    hide AppendToLastPart;
    AppendToLastPartKeepsReader(s, p);
  }

  /** Storing the pending text touches the document and the events only. */
  lemma StoreKeepsReader(s: Settings, p: Parser)
    requires Live(p)
    ensures SameReader(StoreCurrentValue(s, p), p)
    ensures StoreCurrentValue(s, p).recentDelimiters == p.recentDelimiters
    ensures |StoreCurrentValue(s, p).stack| == |p.stack|
  {
    hide StartString, StorePrimitive, StoreImplicit;
    if KeyName(p) !in Top(p).voidFields && p.currentValue != "" {
      StartStringKeepsReader(p);
      StorePrimitiveKeepsReader(s, StartString(p));
      StoreImplicitKeepsReader(s, StorePrimitive(s, StartString(p)));
    }
  }

  /** One more character of input is one more step. */
  lemma RunSnoc(s: Settings, p: Parser, input: string, c: char)
    requires Live(p)
    ensures Run(s, p, input + [c]) == Step(s, Run(s, p, input), c)
  {
    assert (input + [c])[..|input|] == input;
  }

  /** `handleNextChar` dispatches on the state: the text states. */
  lemma StepDispatch(s: Settings, p: Parser, c: char)
    requires Live(p)
    ensures p.state == DataState ==> Step(s, p, c) == HandleData(s, p, c)
    ensures p.state == MaybeDelimiter ==> Step(s, p, c) == HandleMaybeDelimiter(s, p, c)
    ensures p.state == Delimiter ==> Step(s, p, c) == HandleDelimiter(s, p, c)
    ensures p.state == EscapeState ==> Step(s, p, c) == HandleEscape(s, p, c)
    ensures p.state == Locked ==> Step(s, p, c) == HandleLocked(p, c)
    ensures p.state == ReservedDelimiter ==> Step(s, p, c) == HandleReservedDelimiter(p, c)
    ensures p.state == CommentState ==> Step(s, p, c) == HandleComment(p, c)
  {
    hide HandleGoDelimiter, HandleStopDelimiter, HandleGo, HandleCollecting, HandleStart, HandleMaybeDelimiter,
         HandleDelimiter, HandleReservedDelimiter, HandleComment, HandleEscape, HandleInstructionDelimiter,
         HandleInstructionDelimiterName, HandleInstructionDelimiterArgs, HandleDataDelimiter, HandleDataDelimiterName,
         HandleDataDelimiterArgs, HandleContainerDelimiter, HandleVoidDelimiter, HandleCommentDelimiter,
         HandleEscapeDelimiter, HandleEscapeDelimiterName, HandlePartDelimiter, HandleData, HandleLocked;

  }

  /** The states that read the character after the kind letter. */
  lemma StepDispatchTokens(s: Settings, p: Parser, c: char)
    requires Live(p)
    ensures p.state == ObjectDelimiter ==> Step(s, p, c) == HandleContainerDelimiter(s, p, c, false)
    ensures p.state == ArrayDelimiter ==> Step(s, p, c) == HandleContainerDelimiter(s, p, c, true)
    ensures p.state == DataDelimiter ==> Step(s, p, c) == HandleDataDelimiter(s, p, c)
    ensures p.state == InstructionDelimiter ==> Step(s, p, c) == HandleInstructionDelimiter(p, c)
    ensures p.state == EscapeDelimiter ==> Step(s, p, c) == HandleEscapeDelimiter(p, c)
    ensures p.state == VoidDelimiter ==> Step(s, p, c) == HandleVoidDelimiter(p, c)
    ensures p.state == CommentDelimiter ==> Step(s, p, c) == HandleCommentDelimiter(p, c)
    ensures p.state == PartDelimiter ==> Step(s, p, c) == HandlePartDelimiter(s, p, c)
  {
    hide HandleGoDelimiter, HandleStopDelimiter, HandleGo, HandleCollecting, HandleStart, HandleMaybeDelimiter,
         HandleDelimiter, HandleReservedDelimiter, HandleComment, HandleEscape, HandleInstructionDelimiter,
         HandleInstructionDelimiterName, HandleInstructionDelimiterArgs, HandleDataDelimiter, HandleDataDelimiterName,
         HandleDataDelimiterArgs, HandleContainerDelimiter, HandleVoidDelimiter, HandleCommentDelimiter,
         HandleEscapeDelimiter, HandleEscapeDelimiterName, HandlePartDelimiter, HandleData, HandleLocked;

  }

  /** The states that read a token name. */
  lemma StepDispatchNames(s: Settings, p: Parser, c: char)
    requires Live(p)
    ensures p.state == DataDelimiterName ==> Step(s, p, c) == HandleDataDelimiterName(s, p, c)
    ensures p.state == InstructionDelimiterName ==> Step(s, p, c) == HandleInstructionDelimiterName(s, p, c)
    ensures p.state == EscapeDelimiterName ==> Step(s, p, c) == HandleEscapeDelimiterName(s, p, c)
    ensures p.state == InstructionDelimiterArgs ==> Step(s, p, c) == HandleInstructionDelimiterArgs(s, p, c)
  {
    hide HandleGoDelimiter, HandleStopDelimiter, HandleGo, HandleCollecting, HandleStart, HandleMaybeDelimiter,
         HandleDelimiter, HandleReservedDelimiter, HandleComment, HandleEscape, HandleInstructionDelimiter,
         HandleInstructionDelimiterName, HandleInstructionDelimiterArgs, HandleDataDelimiter, HandleDataDelimiterName,
         HandleDataDelimiterArgs, HandleContainerDelimiter, HandleVoidDelimiter, HandleCommentDelimiter,
         HandleEscapeDelimiter, HandleEscapeDelimiterName, HandlePartDelimiter, HandleData, HandleLocked;

  }

  /** In text, `[` starts a possible opening. */
  lemma TextBracket(s: Settings, p: Parser)
    requires Live(p) && p.state == DataState && !p.parsingLocked
    ensures Step(s, p, '[') == p.(state := MaybeDelimiter, delimiterBuffer := p.delimiterBuffer + "[")
  {
    hide Step;
    StepDispatch(s, p, '[');
  }

  /** In text, any other character is stored. */
  lemma TextChar(s: Settings, p: Parser, c: char)
    requires Live(p) && p.state == DataState && !p.parsingLocked && c != '['
    ensures Step(s, p, c) == StoreCurrentValue(s, p.(currentValue := p.currentValue + [c]))
  {
    hide Step;
    StepDispatch(s, p, c);
  }

  /** A character that continues `[` + prefix is buffered; the token kind is
    * read next exactly when the whole opening is buffered. */
  lemma PrefixExtends(s: Settings, p: Parser, c: char)
    requires Live(p) && p.state == MaybeDelimiter
    requires |p.delimiterBuffer| < |OpenSubstring(s)| && c == OpenSubstring(s)[|p.delimiterBuffer|]
    ensures Step(s, p, c)
            == p.(delimiterBuffer := p.delimiterBuffer + [c],
                  state := if p.delimiterBuffer + [c] == OpenSubstring(s) then Delimiter else MaybeDelimiter)
  {
    hide Step;
    StepDispatch(s, p, c);
  }

  /** From text with nothing buffered, reading `[` + prefix reaches the
    * state that reads the token kind, with the opening buffered and the
    * pending text untouched. */
  lemma {:induction false} OpeningRecognised(s: Settings, p: Parser)
    requires Live(p) && p.state == DataState && !p.parsingLocked && p.delimiterBuffer == "" && s.prefix != ""
    ensures Run(s, p, OpenSubstring(s)).state == Delimiter
    ensures Run(s, p, OpenSubstring(s)).delimiterBuffer == OpenSubstring(s)
    ensures Run(s, p, OpenSubstring(s)).currentValue == p.currentValue
    ensures Run(s, p, OpenSubstring(s)) == p.(state := Delimiter, delimiterBuffer := OpenSubstring(s))
  {
    hide Step;
    var open := OpenSubstring(s);
    var k := 1;
    assert open[..1] == [] + ['['];
    RunSnoc(s, p, [], '[');
    TextBracket(s, p);
    while k < |open| - 1
      invariant 1 <= k <= |open| - 1
      invariant Run(s, p, open[..k]) == p.(state := MaybeDelimiter, delimiterBuffer := open[..k])
    {
      assert open[..k + 1] == open[..k] + [open[k]];
      RunSnoc(s, p, open[..k], open[k]);
      PrefixExtends(s, Run(s, p, open[..k]), open[k]);
      k := k + 1;
    }
    assert open == open[..k] + [open[k]];
    RunSnoc(s, p, open[..k], open[k]);
    PrefixExtends(s, Run(s, p, open[..k]), open[k]);
  }

  /** A letter or digit that names no kind starts a reserved token. */
  lemma ReservedLetter(s: Settings, p: Parser, c: char)
    requires Live(p) && p.state == Delimiter && !p.parsingLocked && IsAlnum(c) && KindOf(c).None?
    ensures Step(s, p, c) == p.(currentDelimiter := Some(DelimiterData(None, None, [])), state := ReservedDelimiter,
                                delimiterBuffer := p.delimiterBuffer + [c])
  {
    hide Step;
    StepDispatch(s, p, c);
  }

  /** A reserved token ends at `]` and is dropped with the pending text;
    * any other character makes it text. */
  lemma ReservedClose(s: Settings, p: Parser, d: char)
    requires Live(p) && p.state == ReservedDelimiter && !p.parsingLocked
    ensures d == ']' ==> Step(s, p, d) == p.(delimiterBuffer := "", state := DataState, currentValue := "")
    ensures d != ']' ==> Step(s, p, d) == ExitIntoData(p, d)
  {
    hide Step;
    StepDispatch(s, p, d);
  }

  /** `[P` + a letter or digit that names no token kind: with `]` it is a
    * reserved token, dropped with the pending text and leaving no trace but
    * an empty current delimiter; with anything else the whole token is text. */
  lemma ReservedTokenDiscarded(s: Settings, p: Parser, c: char, d: char)
    requires Live(p) && p.state == DataState && !p.parsingLocked && p.delimiterBuffer == "" && s.prefix != ""
    requires IsAlnum(c) && KindOf(c).None?
    ensures Run(s, p, OpenSubstring(s) + [c, ']']) == p.(currentDelimiter := Some(DelimiterData(None, None, [])), currentValue := "")
    ensures d != ']' ==> Run(s, p, OpenSubstring(s) + [c, d]) == p.(currentDelimiter := None, currentValue := p.currentValue + OpenSubstring(s) + [c, d])
  {
    hide Step;
    var open := OpenSubstring(s);
    OpeningRecognised(s, p);
    RunSnoc(s, p, open, c);
    ReservedLetter(s, Run(s, p, open), c);
    var q := Run(s, p, open + [c]);
    ReservedClose(s, q, ']');
    ReservedClose(s, q, d);
    assert open + [c, ']'] == (open + [c]) + [']'];
    assert open + [c, d] == (open + [c]) + [d];
    RunSnoc(s, p, open + [c], ']');
    RunSnoc(s, p, open + [c], d);
  }

  /** A kind letter after a complete opening selects that token's state
    * and records the kind in the history. */
  lemma KindLetterOpens(s: Settings, p: Parser, c: char)
    requires Live(p) && p.state == Delimiter && !p.parsingLocked && KindOf(c).Some?
    ensures Step(s, p, c) == p.(currentDelimiter := Some(DelimiterData(KindOf(c), None, [])), state := DelimiterStateFor(KindOf(c).value),
                                delimiterBuffer := p.delimiterBuffer + [c],
                                recentDelimiters := History.Added(p.recentDelimiters, KindOf(c).value, RecentCapacity))
  {
    hide Step;
    StepDispatch(s, p, c);
  }

  /** `]` after `[Pc` outside an escape region enters the comment. */
  lemma CommentClose(s: Settings, p: Parser)
    requires Live(p) && p.state == CommentDelimiter && !p.parsingLocked && !EscapeActive(p.currentEscapeDelimiter)
    ensures Step(s, p, ']') == p.(state := CommentState, delimiterBuffer := "", currentValue := "")
  {
    hide Step;
    StepDispatchTokens(s, p, ']');
  }

  /** `[Pc]` from text enters a comment: the pending text is dropped and
    * nothing else changes but the delimiter history. */
  lemma CommentTokenOpens(s: Settings, p: Parser)
    requires Live(p) && p.state == DataState && !p.parsingLocked && p.delimiterBuffer == "" && s.prefix != ""
    requires !EscapeActive(p.currentEscapeDelimiter)
    ensures Run(s, p, OpenSubstring(s) + "c]")
            == p.(state := CommentState, currentValue := "", currentDelimiter := Some(DelimiterData(Some(Comment), None, [])),
                  recentDelimiters := History.Added(p.recentDelimiters, Comment, RecentCapacity))
  {
    hide Step;
    var open := OpenSubstring(s);
    OpeningRecognised(s, p);
    RunSnoc(s, p, open, 'c');
    KindLetterOpens(s, Run(s, p, open), 'c');
    assert open + "c]" == (open + ['c']) + [']'];
    RunSnoc(s, p, open + ['c'], ']');
    CommentClose(s, Run(s, p, open + ['c']));
  }

  /** Inside a comment, text without `[` changes nothing at all. */
  lemma {:induction false} CommentDropsText(s: Settings, p: Parser, text: string)
    requires Live(p) && p.state == CommentState && !p.parsingLocked
    requires forall i | 0 <= i < |text| :: text[i] != '['
    ensures Run(s, p, text) == p
    decreases |text|
  {
    hide Step;
    if text != [] {
      var init := text[..|text| - 1];
      CommentDropsText(s, p, init);
      assert text == init + [text[|text| - 1]];
      RunSnoc(s, p, init, text[|text| - 1]);
      StepDispatch(s, p, text[|text| - 1]);
    }
  }

  /** The buffer of a half-read opening that can no longer become one. */
  predicate Stale(s: Settings, p: Parser)
  {
    Live(p) && !p.parsingLocked && (p.state == DataState || p.state == MaybeDelimiter)
    && !(p.delimiterBuffer <= OpenSubstring(s))
  }

  lemma NotPrefixExtended(b: string, c: char, open: string)
    requires !(b <= open)
    ensures !(b + [c] <= open) && b + [c] != open
  {
  }

  /** A stale buffer stays stale whatever character follows. */
  lemma StaleStep(s: Settings, p: Parser, c: char)
    requires Stale(s, p)
    ensures Stale(s, Step(s, p, c))
  {
    hide Step, StoreCurrentValue;
    StepDispatch(s, p, c);
    NotPrefixExtended(p.delimiterBuffer, c, OpenSubstring(s));
    if p.state == DataState && c != '[' {
      StoreKeepsReader(s, p.(currentValue := p.currentValue + [c]));
    }
  }

  /** Once the buffer is stale, no token is ever recognised again: the kind
    * letter is never read. */
  lemma {:induction false} StaleRun(s: Settings, p: Parser, input: string)
    requires Stale(s, p)
    ensures Stale(s, Run(s, p, input))
    ensures Run(s, p, input).state != Delimiter
    decreases |input|
  {
    hide Step;
    if input != [] {
      StaleRun(s, p, input[..|input| - 1]);
      StaleStep(s, Run(s, p, input[..|input| - 1]), input[|input| - 1]);
    }
  }

  // With the empty prefix the opening is `[` alone, but only the branch of
  // the maybe-delimiter handler that extends the buffer can complete an
  // opening, and it compares the character after `[` with the prefix's
  // first character, which does not exist. So no token is ever read.

  /** With the empty prefix, `[` and any character leave the reader in text,
    * with the character stored and the `[` still buffered. */
  lemma EmptyPrefixBracket(s: Settings, p: Parser, c: char)
    requires Live(p) && p.state == DataState && !p.parsingLocked && s.prefix == ""
    ensures Run(s, p, ['[', c]) == p.(state := DataState, delimiterBuffer := p.delimiterBuffer + "[",
                                      currentValue := p.currentValue + [c])
  {
    hide Step;
    assert [] + ['['] == ['['];
    RunSnoc(s, p, [], '[');
    TextBracket(s, p);
    assert ['['] + [c] == ['[', c];
    RunSnoc(s, p, ['['], c);
    PrefixMismatch(s, Run(s, p, ['[']), c);
  }

  /** The reader is in text, or holds at least the `[` of an opening that
    * the empty prefix cannot complete. */
  predicate EmptyPrefixReading(s: Settings, p: Parser)
  {
    Live(p) && !p.parsingLocked && s.prefix == ""
    && (p.state == DataState || (p.state == MaybeDelimiter && |p.delimiterBuffer| >= 1))
  }

  lemma EmptyPrefixStep(s: Settings, p: Parser, c: char)
    requires EmptyPrefixReading(s, p)
    ensures EmptyPrefixReading(s, Step(s, p, c))
  {
    hide Step, StoreCurrentValue;
    if p.state == DataState {
      if c == '[' {
        TextBracket(s, p);
      } else {
        TextChar(s, p, c);
        StoreKeepsReader(s, p.(currentValue := p.currentValue + [c]));
      }
    } else {
      PrefixMismatch(s, p, c);
    }
  }

  /** With the empty prefix, no input read from text reaches the state that
    * reads a token's kind letter. */
  lemma {:induction false} EmptyPrefixNeverOpens(s: Settings, p: Parser, input: string)
    requires Live(p) && p.state == DataState && !p.parsingLocked && s.prefix == ""
    ensures EmptyPrefixReading(s, Run(s, p, input))
    ensures Run(s, p, input).state != Delimiter
    decreases |input|
  {
    hide Step;
    if input != [] {
      var init := input[..|input| - 1];
      EmptyPrefixNeverOpens(s, p, init);
      EmptyPrefixStep(s, Run(s, p, init), input[|input| - 1]);
      assert input == init + [input[|input| - 1]];
      RunSnoc(s, p, init, input[|input| - 1]);
    }
  }

  /** Text without `[` keeps the reader in the text state with its buffer. */
  lemma {:induction false} PlainTextKeepsBuffer(s: Settings, p: Parser, text: string)
    requires Live(p) && p.state == DataState && !p.parsingLocked
    requires forall i :: 0 <= i < |text| ==> text[i] != '['
    ensures Run(s, p, text).state == DataState && !Run(s, p, text).parsingLocked
    ensures Run(s, p, text).delimiterBuffer == p.delimiterBuffer
    decreases |text|
  {
    hide Step;
    if text != [] {
      var q := Run(s, p, text[..|text| - 1]);
      PlainTextKeepsBuffer(s, p, text[..|text| - 1]);
      TextChar(s, q, text[|text| - 1]);
      StoreKeepsReader(s, q.(currentValue := q.currentValue + [text[|text| - 1]]));
    }
  }

  /** A character that does not continue `[` + prefix goes into the pending
    * text on its own: the buffered part of the opening stays in the buffer
    * and is neither written out nor cleared. */
  lemma PrefixMismatch(s: Settings, p: Parser, c: char)
    requires Live(p) && p.state == MaybeDelimiter
    requires !(|p.delimiterBuffer| < |OpenSubstring(s)| && c == OpenSubstring(s)[|p.delimiterBuffer|])
    ensures Step(s, p, c) == p.(state := DataState, currentValue := p.currentValue + [c])
  {
    hide Step;
    StepDispatch(s, p, c);
  }

  /** A `[` followed by a character that does not continue the prefix (as
    * in `[Your name]`) leaves the `[` in the buffer; the next `[` makes the
    * buffer stale, and from then on no token is recognised, whatever the
    * rest of the input. */
  lemma PrefixMismatchDisablesTokens(s: Settings, p: Parser, c: char, middle: string, rest: string)
    requires Live(p) && p.state == DataState && !p.parsingLocked && p.delimiterBuffer == ""
    requires |s.prefix| > 0 && s.prefix[0] != '[' && c != s.prefix[0]
    requires forall i :: 0 <= i < |middle| ==> middle[i] != '['
    ensures Stale(s, Run(s, p, ['[', c] + middle + ['[']))
    ensures Run(s, p, ['[', c] + middle + ['['] + rest).state != Delimiter
  {
    hide Step;
    var open := OpenSubstring(s);
    assert open[1] == s.prefix[0];
    RunSnoc(s, p, [], '[');
    assert [] + ['['] == ['['];
    TextBracket(s, p);
    var p0 := Run(s, p, ['[']);
    RunSnoc(s, p, ['['], c);
    assert ['['] + [c] == ['[', c];
    PrefixMismatch(s, p0, c);
    var p1 := Run(s, p, ['[', c]);
    assert p1.state == DataState && p1.delimiterBuffer == "[" && !p1.parsingLocked;
    RunAppend(s, p, ['[', c], middle);
    PlainTextKeepsBuffer(s, p1, middle);
    var p2 := Run(s, p, ['[', c] + middle);
    RunSnoc(s, p, ['[', c] + middle, '[');
    TextBracket(s, p2);
    assert Run(s, p, ['[', c] + middle + ['[']).delimiterBuffer == "[[";
    assert !("[[" <= open);
    RunAppend(s, p, ['[', c] + middle + ['['], rest);
    StaleRun(s, Run(s, p, ['[', c] + middle + ['[']), rest);
  }

  /** The text of a field that reads `[Your name].` followed by a part
    * token: after `[Your name].[aslan` the decoder is not reading a token
    * kind, so the `[aslanp]` that follows is not recognised. */
  lemma DelimiterLikeTextHidesNextToken(p: Parser)
    requires Live(p) && p.state == DataState && !p.parsingLocked && p.delimiterBuffer == ""
    ensures Run(DefaultSettings, p, "[Your name].[aslan").state != Delimiter
  {
    hide Step;
    var middle := "our name].";
    assert "[Your name].[aslan" == ['[', 'Y'] + middle + ['['] + "aslan";
    PrefixMismatchDisablesTokens(DefaultSettings, p, 'Y', middle, "aslan");
  }

  // ---------------------------------------------------------------------
  // Token names.
  // ---------------------------------------------------------------------

  /** The states that read a token name. */
  predicate NameState(st: ParserState)
  {
    st == DataDelimiterName || st == InstructionDelimiterName || st == EscapeDelimiterName
  }

  /** Every character of the name is a name character, and it does not
    * start with `_`: each character extends the name. */
  predicate NameBody(name: string)
  {
    (forall i :: 0 <= i < |name| ==> IsNameChar(name[i])) && (|name| > 0 ==> name[0] != '_')
  }

  lemma ValidNameIsBody(name: string)
    ensures ValidName(name) <==> NameBody(name) && !EndsWithUnderscore(name)
  {
  }

  /** `[Pd_` + name: each character is accepted, refused or ends the name
    * as the token-name grammar says. */
  lemma DataNameStep(s: Settings, p: Parser, c: char)
    requires Live(p) && p.state == DataDelimiterName && !p.parsingLocked
    ensures NameStepOf(ContentOf(p.currentDelimiter), c, true) == Refuse ==> Step(s, p, c) == ExitIntoData(p, c)
    ensures NameStepOf(ContentOf(p.currentDelimiter), c, true) == Extend
            ==> Step(s, p, c) == WithContent(p, ContentOf(p.currentDelimiter) + [c]).(delimiterBuffer := p.delimiterBuffer + [c])
    ensures NameStepOf(ContentOf(p.currentDelimiter), c, true) == EndAt
            ==> Step(s, p, c) == if c == ']' then EndDataName(s, p) else StartDataArgs(s, p, c)
  {
    hide Step, EndDataName, StartDataArgs;
    StepDispatchNames(s, p, c);
  }

  /** `[Pi_` + name. */
  lemma InstructionNameStep(s: Settings, p: Parser, c: char)
    requires Live(p) && p.state == InstructionDelimiterName && !p.parsingLocked
    ensures NameStepOf(ContentOf(p.currentDelimiter), c, true) == Refuse ==> Step(s, p, c) == ExitIntoData(p, c)
    ensures NameStepOf(ContentOf(p.currentDelimiter), c, true) == Extend
            ==> Step(s, p, c) == WithContent(p, ContentOf(p.currentDelimiter) + [c]).(delimiterBuffer := p.delimiterBuffer + [c])
    ensures NameStepOf(ContentOf(p.currentDelimiter), c, true) == EndAt
            ==> Step(s, p, c) == if c == ']' then EndInstructionName(s, p)
                                 else WithArgs(p.(state := InstructionDelimiterArgs, currentValue := "", delimiterBuffer := p.delimiterBuffer + [c]), [""])
  {
    hide Step, EndInstructionName;
    StepDispatchNames(s, p, c);
  }

  /** `[Pe_` + name: escape names take no arguments. */
  lemma EscapeNameStep(s: Settings, p: Parser, c: char)
    requires Live(p) && p.state == EscapeDelimiterName && !p.parsingLocked
    ensures NameStepOf(ContentOf(p.currentDelimiter), c, false) == Refuse ==> Step(s, p, c) == ExitIntoData(p, c)
    ensures NameStepOf(ContentOf(p.currentDelimiter), c, false) == Extend
            ==> Step(s, p, c) == WithContent(p, ContentOf(p.currentDelimiter) + [c]).(delimiterBuffer := p.delimiterBuffer + [c])
    ensures NameStepOf(ContentOf(p.currentDelimiter), c, false) == EndAt
            ==> Step(s, p, c) == EndEscapeName(s, p, ContentOf(p.currentDelimiter))
  {
    hide Step, EndEscapeName;
    StepDispatchNames(s, p, c);
  }

  /** The name read so far. */
  function NameRead(p: Parser, name: string): (r: Parser)
    ensures ContentOf(r.currentDelimiter) == name && r.state == p.state
  {
    WithContent(p, name).(delimiterBuffer := p.delimiterBuffer + name)
  }

  lemma NameCharStep(s: Settings, p: Parser, c: char)
    requires Live(p) && NameState(p.state) && !p.parsingLocked
    requires IsNameChar(c) && !(c == '_' && ContentOf(p.currentDelimiter) == "")
    ensures Step(s, p, c) == WithContent(p, ContentOf(p.currentDelimiter) + [c]).(delimiterBuffer := p.delimiterBuffer + [c])
  {
    hide Step;
    if p.state == DataDelimiterName {
      DataNameStep(s, p, c);
    } else if p.state == InstructionDelimiterName {
      InstructionNameStep(s, p, c);
    } else {
      EscapeNameStep(s, p, c);
    }
  }

  /** A name of name characters not starting with `_` is read whole: the
    * token's name is the name, and its text is buffered. */
  lemma {:induction false} NameReadWhole(s: Settings, p: Parser, name: string)
    requires Live(p) && NameState(p.state) && !p.parsingLocked && p.currentDelimiter.Some? && p.currentDelimiter.value.content == Some("")
    requires NameBody(name)
    ensures Run(s, p, name) == NameRead(p, name)
    decreases |name|
  {
    hide Step;
    if name == [] {
      assert p.delimiterBuffer + name == p.delimiterBuffer;
    } else {
      var init := name[..|name| - 1];
      var c := name[|name| - 1];
      assert NameBody(init) by {
        assert forall i :: 0 <= i < |init| ==> init[i] == name[i];
      }
      NameReadWhole(s, p, init);
      assert init + [c] == name;
      assert IsNameChar(c) && !(c == '_' && init == "") by {
        if init == "" {
          assert c == name[0];
        }
      }
      NameCharStep(s, NameRead(p, init), c);
    }
  }

  /** `[Pd_name]` ends the field and moves to the key `name` exactly when
    * the name is valid; `[Pd_name:` starts the arguments exactly when the
    * name is also non-empty. Otherwise the token is text. */
  lemma DataNameToken(s: Settings, p: Parser, name: string)
    requires Live(p) && p.state == DataDelimiterName && !p.parsingLocked && p.currentDelimiter.Some? && p.currentDelimiter.value.content == Some("")
    requires NameBody(name)
    ensures Run(s, p, name + "]") == if ValidName(name) then EndDataName(s, NameRead(p, name)) else ExitIntoData(NameRead(p, name), ']')
    ensures Run(s, p, name + ":") == if ValidName(name) && name != "" then StartDataArgs(s, NameRead(p, name), ':') else ExitIntoData(NameRead(p, name), ':')
  {
    hide Step, EndDataName, StartDataArgs;
    NameReadWhole(s, p, name);
    RunSnoc(s, p, name, ']');
    RunSnoc(s, p, name, ':');
    DataNameStep(s, NameRead(p, name), ']');
    DataNameStep(s, NameRead(p, name), ':');
  }

  /** `[Pi_name]` registers the instruction exactly when the name is valid. */
  lemma InstructionNameToken(s: Settings, p: Parser, name: string)
    requires Live(p) && p.state == InstructionDelimiterName && !p.parsingLocked && p.currentDelimiter.Some? && p.currentDelimiter.value.content == Some("")
    requires NameBody(name)
    ensures Run(s, p, name + "]") == if ValidName(name) then EndInstructionName(s, NameRead(p, name)) else ExitIntoData(NameRead(p, name), ']')
  {
    hide Step, EndInstructionName;
    NameReadWhole(s, p, name);
    RunSnoc(s, p, name, ']');
    InstructionNameStep(s, NameRead(p, name), ']');
  }

  /** `[Pe_name]` acts as an escape token exactly when the name is valid. */
  lemma EscapeNameToken(s: Settings, p: Parser, name: string)
    requires Live(p) && p.state == EscapeDelimiterName && !p.parsingLocked && p.currentDelimiter.Some? && p.currentDelimiter.value.content == Some("")
    requires NameBody(name)
    ensures Run(s, p, name + "]") == if ValidName(name) then EndEscapeName(s, NameRead(p, name), name) else ExitIntoData(NameRead(p, name), ']')
  {
    hide Step, EndEscapeName;
    NameReadWhole(s, p, name);
    RunSnoc(s, p, name, ']');
    EscapeNameStep(s, NameRead(p, name), ']');
  }

  // ---------------------------------------------------------------------
  // Escapes.
  // ---------------------------------------------------------------------

  /** While an escape region is open, the tokens that would change the
    * structure (containers, data, instructions, void, comments, parts) are
    * text. */
  lemma EscapedTokensAreText(s: Settings, p: Parser, c: char)
    requires Live(p) && !p.parsingLocked && EscapeActive(p.currentEscapeDelimiter)
    requires p.state in {ObjectDelimiter, ArrayDelimiter, DataDelimiter, InstructionDelimiter, VoidDelimiter, CommentDelimiter, PartDelimiter}
    ensures Step(s, p, c) == ExitIntoData(p, c)
  {
    hide Step;
    StepDispatchTokens(s, p, c);
  }

  /** A complete escape token opens a region when none is open, closes the
    * region of the same name, and leaves another region open, its own text
    * stored as text of the field. */
  lemma EscapeRegions(s: Settings, p: Parser, name: string)
    requires Live(p)
    ensures !EscapeActive(p.currentEscapeDelimiter)
            ==> EndEscapeName(s, p, name).currentEscapeDelimiter == Some(name) && EndEscapeName(s, p, name).state == EscapeState
    ensures EscapeActive(p.currentEscapeDelimiter) && p.currentEscapeDelimiter.value == name
            ==> EndEscapeName(s, p, name).currentEscapeDelimiter == None && EndEscapeName(s, p, name).state == DataState
    ensures EscapeActive(p.currentEscapeDelimiter) && p.currentEscapeDelimiter.value != name
            ==> EndEscapeName(s, p, name).currentEscapeDelimiter == p.currentEscapeDelimiter
                && EndEscapeName(s, p, name).state == DataState && EndEscapeName(s, p, name).currentValue == "]"
  {
    hide StoreCurrentValue;
    if EscapeActive(p.currentEscapeDelimiter) && p.currentEscapeDelimiter.value != name {
      var p1 := p.(state := EscapeState, delimiterBuffer := "", currentValue := "[" + s.prefix + "e_" + name);
      StoreKeepsReader(s, p1);
      StoreClearsPending(s, p1);
    }
  }

  // ---------------------------------------------------------------------
  // Storing text into a field.
  // ---------------------------------------------------------------------

  /** After storing, nothing is pending. */
  lemma StoreClearsPending(s: Settings, p: Parser)
    requires Live(p)
    ensures StoreCurrentValue(s, p).currentValue == ""
  {
    hide StartString, StorePrimitive, StoreImplicit;
  }

  /** Text for an unlocked field that holds text (or nothing yet) is
    * appended to that text. */
  lemma StoreAppendsText(s: Settings, p: Parser)
    requires Live(p) && p.currentValue != "" && Writable(Top(p).container, CurrentKey(p))
    requires KeyName(p) !in p.dataInsertionLocks && KeyName(p) !in Top(p).voidFields && KeyName(p) !in Top(p).implicitArrays
    requires Latest(p).Str? || Latest(p).Undefined?
    ensures Latest(StoreCurrentValue(s, p)) == Str((if Latest(p).Str? then Latest(p).s else "") + p.currentValue)
    ensures CurrentKey(StoreCurrentValue(s, p)) == CurrentKey(p)
  {
    hide StartString, StorePrimitive, StoreImplicit;
    var text := if Latest(p).Str? then Latest(p).s else "";
    var q1 := StartString(p);
    StartStringText(p);
    StorePrimitiveAppends(s, q1);
    var q2 := StorePrimitive(s, q1);
    StoreImplicitSkips(s, q2);
  }

  lemma StartStringText(p: Parser)
    requires Live(p) && (Latest(p).Str? || Latest(p).Undefined?) && Writable(Top(p).container, CurrentKey(p))
    ensures Latest(StartString(p)) == Str(if Latest(p).Str? then Latest(p).s else "")
    ensures Top(StartString(p)).currentKey == Top(p).currentKey && Top(StartString(p)).implicitArrays == Top(p).implicitArrays
    ensures Writable(Top(StartString(p)).container, CurrentKey(p)) && StartString(p).currentValue == p.currentValue
    ensures StartString(p).dataInsertionLocks == p.dataInsertionLocks
  {
    assert ArrayIndex(CurrentKey(p)) || Top(p).container.Obj?;
    hide SetLatest;
  }

  lemma StorePrimitiveAppends(s: Settings, p: Parser)
    requires Live(p) && Latest(p).Str? && Writable(Top(p).container, CurrentKey(p)) && KeyName(p) !in p.dataInsertionLocks
    ensures Latest(StorePrimitive(s, p)) == Str(Latest(p).s + p.currentValue)
    ensures Top(StorePrimitive(s, p)).currentKey == Top(p).currentKey && Top(StorePrimitive(s, p)).implicitArrays == Top(p).implicitArrays
    ensures StorePrimitive(s, p).dataInsertionLocks == p.dataInsertionLocks
  {
    hide SetLatest, EmitPrimitive;
  }

  /** `join` reads the first elements of a longer array as it reads them
    * in the shorter one. */
  lemma {:induction false} JoinedTextPrefix(xs: seq<Value>, e: Value, n: nat)
    requires n <= |xs|
    ensures JoinedText(Arr(xs + [e]), n) == JoinedText(Arr(xs), n)
    decreases n
  {
    hide JsText, ElemText;
    if n > 0 {
      JoinedTextPrefix(xs, e, n - 1);
      assert (xs + [e])[n - 1] == xs[n - 1];
    }
  }

  /** The text of an array, as `+=` reads a part that is itself an array:
    * the elements' texts separated by `,`, `null` and holes as empty text. */
  lemma ArrayTextJoins(xs: seq<Value>, e: Value)
    ensures JsText(Arr([])) == ""
    ensures JsText(Arr(xs + [e])) == JsText(Arr(xs)) + (if xs == [] then "" else ",") + ElemText(e)
    ensures e.Str? ==> JsText(Arr([e])) == e.s
  {
    JoinedTextPrefix(xs, e, |xs|);
    assert (xs + [e])[|xs|] == e;
    if e.Str? {
      assert JsText(Arr([e])) == JoinedText(Arr([e]), 0) + ElemText(e);
    }
  }

  /** What the implicit-array branch writes: the pending text goes after the
    * last part's text; a field holding an object without its own `length`
    * gets it at the key `NaN` after that key's text (`undefined` when
    * absent); any other field is left as it was. */
  lemma AppendToLastPartMeaning(s: Settings, p: Parser)
    requires Live(p) && Writable(Top(p).container, CurrentKey(p))
    ensures var v := Latest(p); var r := AppendToLastPart(s, p);
            v.Arr? && v.elems != [] ==>
              Latest(r) == Arr(v.elems[|v.elems| - 1 := Str(JsText(v.elems[|v.elems| - 1]) + p.currentValue)])
    ensures var v := Latest(p); var r := AppendToLastPart(s, p);
            v.Obj? && "length" !in v.fields ==>
              Latest(r) == Obj(v.fields[NaNKey := Str((if NaNKey in v.fields then JsText(v.fields[NaNKey]) else "undefined") + p.currentValue)])
    ensures var v := Latest(p);
            !(v.Arr? && v.elems != []) && !(v.Obj? && "length" !in v.fields) ==> AppendToLastPart(s, p).stack == p.stack
    ensures CurrentKey(AppendToLastPart(s, p)) == CurrentKey(p)
  {
    assert JsText(Undefined) == "undefined";
    hide EmitImplicit, JsText, SetLatest;
    var v := Latest(p);
    if v.Obj? && "length" !in v.fields {
      var w := Obj(v.fields[NaNKey := Str(JsText(Get(v, Name(NaNKey))) + p.currentValue)]);
      assert Get(v, Name(NaNKey)) == if NaNKey in v.fields then v.fields[NaNKey] else Undefined;
      var q := SetLatest(p, w);
      assert Latest(q) == w;
      assert AppendToLastPart(s, p) == EmitImplicit(s, q, ContentTag);
    }
  }

  lemma StoreImplicitSkips(s: Settings, p: Parser)
    requires Live(p) && KeyName(p) !in Top(p).implicitArrays
    ensures StoreImplicit(s, p) == p
  {
    hide AppendToLastPart;
  }

  /** A locked field (KEEP_FIRST, seen again) keeps its value: the pending
    * text is dropped; only a field with no value yet becomes `""`. */
  lemma LockedFieldKeepsValue(s: Settings, p: Parser)
    requires Live(p) && KeyName(p) in p.dataInsertionLocks && KeyName(p) !in Top(p).voidFields
    ensures p.currentValue == "" ==> StoreCurrentValue(s, p) == p
    ensures p.currentValue != "" && Truthy(Latest(p)) ==> StoreCurrentValue(s, p) == p.(currentValue := "")
    ensures p.currentValue != "" && !Truthy(Latest(p)) ==> StoreCurrentValue(s, p) == SetLatest(p, Str("")).(currentValue := "")
  {
    hide ContentEvents, PathOf, SetLatest;
  }

  /** A VOID field becomes `null` whatever text it is given. */
  lemma VoidFieldIsNull(s: Settings, p: Parser)
    requires Live(p) && KeyName(p) in Top(p).voidFields
    ensures Writable(Top(p).container, CurrentKey(p)) ==> Latest(StoreCurrentValue(s, p)) == Null
    ensures StoreCurrentValue(s, p).currentValue == ""
  {
  }

  /** `[Pv]` marks the current field as VOID. */
  lemma VoidTokenMarks(s: Settings, p: Parser)
    requires Live(p) && p.state == VoidDelimiter && !p.parsingLocked && !EscapeActive(p.currentEscapeDelimiter)
    ensures KeyName(Step(s, p, ']')) == KeyName(p) && KeyName(p) in Top(Step(s, p, ']')).voidFields
    ensures Step(s, p, ']').state == DataState && Top(Step(s, p, ']')).container == Top(p).container
  {
    hide Step;
    StepDispatchTokens(s, p, ']');
  }

  // ---------------------------------------------------------------------
  // Insertion types.
  // ---------------------------------------------------------------------

  /** The first occurrence of a key fixes its insertion type; a repeated
    * KEEP_LAST key is emptied and loses its instructions (the others are
    * kept); a repeated KEEP_FIRST key is locked; nothing else changes the
    * field. */
  lemma InsertionPolicy(s: Settings, p: Parser, t: InsertionType)
    requires Live(p)
    ensures var key := KeyName(p);
            SetDataInsertionType(s, p, t).dataInsertionTypes
            == if key in p.dataInsertionTypes then p.dataInsertionTypes else p.dataInsertionTypes[key := t]
    ensures var key := KeyName(p);
            SetDataInsertionType(s, p, t).dataInsertionLocks
            == if key in p.dataInsertionTypes && p.dataInsertionTypes[key] == KeepFirst then p.dataInsertionLocks + {key} else p.dataInsertionLocks
    ensures var key := KeyName(p);
            !(key in p.dataInsertionTypes && p.dataInsertionTypes[key] == KeepLast) ==> SetDataInsertionType(s, p, t).stack == p.stack
    ensures var key := KeyName(p); var r := SetDataInsertionType(s, p, t);
            key in p.dataInsertionTypes && p.dataInsertionTypes[key] == KeepLast ==>
              CurrentKey(r) == CurrentKey(p) && |r.stack| == |p.stack|
              && (Writable(Top(p).container, CurrentKey(p)) ==> Latest(r) == Str(""))
              && (forall i :: 0 <= i < |Top(r).instructions| ==> Top(r).instructions[i].key != CurrentKey(p))
              && (forall i :: 0 <= i < |Top(p).instructions| && Top(p).instructions[i].key != CurrentKey(p) ==> Top(p).instructions[i] in Top(r).instructions)
  {
    hide SetLatest, WithoutKey;
  }

  // ---------------------------------------------------------------------
  // Objects and arrays.
  // ---------------------------------------------------------------------

  /** The source's conditions for a complete `[Po]` or `[Pa]` to open a
    * container: the second most recent material delimiter is DATA and the
    * field is empty or already holds an object-typed value; or else the key
    * was written before in this frame (its flag is then cleared). */
  predicate OpensOnValue(s: Settings, p: Parser)
    requires Live(p)
  {
    SecondMaterial(p.recentDelimiters) == Some(Data)
    && (!ObjectSafe(s.collapseObjectStartWhitespace, Latest(p)) || TypeofObject(Latest(p)))
  }

  predicate Opens(s: Settings, p: Parser)
    requires Live(p)
  {
    OpensOnValue(s, p) || KeyName(p) in Top(p).alreadySeen
  }

  lemma ContainerActionMeaning(s: Settings, p: Parser)
    requires Live(p)
    ensures ContainerActionOf(s, p) == Open <==> OpensOnValue(s, p)
    ensures ContainerActionOf(s, p) == ClearSeenAndOpen <==> !OpensOnValue(s, p) && KeyName(p) in Top(p).alreadySeen
    ensures ContainerActionOf(s, p) == Close <==> !Opens(s, p) && |p.stack| > 1
  {
  }

  /** Opening: the new frame holds an empty container, which is placed at
    * the key of the frame below; the frames below that are unchanged. */
  lemma CreateNewShape(s: Settings, p: Parser, isArray: bool)
    requires Live(p)
    ensures var r := CreateNew(s, p, isArray);
            var empty := if isArray then Arr([]) else Obj(map[]);
            |r.stack| == |p.stack| + 1
            && Top(r) == EmptyFrame(empty, if isArray then Index(-1) else Name(s.defaultFieldName))
            && r.stack[..|p.stack| - 1] == p.stack[..|p.stack| - 1]
            && r.stack[|p.stack| - 1] == Top(p).(container := r.stack[|p.stack| - 1].container)
            && (Writable(Top(p).container, CurrentKey(p)) ==> Get(r.stack[|p.stack| - 1].container, CurrentKey(p)) == empty)
            && r.currentValue == "" && r.state == p.state
  {
    hide Put;
    var empty := if isArray then Arr([]) else Obj(map[]);
    var p1 := SetLatest(p.(currentValue := ""), empty);
    assert p1.stack[..|p.stack| - 1] == p.stack[..|p.stack| - 1];
  }

  /** The state after the closing `]` of a container token, before the
    * decision is applied. */
  function AfterContainerToken(p: Parser, isArray: bool): (r: Parser)
    ensures r.stack == p.stack && r.recentDelimiters == p.recentDelimiters
  {
    p.(state := if isArray then ArrayState else ObjectState, delimiterBuffer := "")
  }

  lemma ContainerTokenApplies(s: Settings, p: Parser, isArray: bool)
    requires Live(p) && p.state == (if isArray then ArrayDelimiter else ObjectDelimiter)
    requires !p.parsingLocked && !EscapeActive(p.currentEscapeDelimiter)
    ensures Step(s, p, ']') == ApplyContainerAction(s, AfterContainerToken(p, isArray), ContainerActionOf(s, p), isArray)
  {
    hide Step, ApplyContainerAction, ContainerActionOf;
    StepDispatchTokens(s, p, ']');
  }

  /** A complete `[Po]` or `[Pa]` opens a container exactly when `Opens`
    * holds, clearing the key's already-seen flag unless the value alone
    * decided; the new container sits at the key of the frame below. */
  lemma ContainerTokenOpens(s: Settings, p: Parser, isArray: bool)
    requires Live(p) && p.state == (if isArray then ArrayDelimiter else ObjectDelimiter)
    requires !p.parsingLocked && !EscapeActive(p.currentEscapeDelimiter) && Opens(s, p)
    ensures var r := Step(s, p, ']');
            var empty := if isArray then Arr([]) else Obj(map[]);
            |r.stack| == |p.stack| + 1
            && Top(r) == EmptyFrame(empty, if isArray then Index(-1) else Name(s.defaultFieldName))
            && r.stack[..|p.stack| - 1] == p.stack[..|p.stack| - 1]
            && r.stack[|p.stack| - 1].alreadySeen == (if OpensOnValue(s, p) then Top(p).alreadySeen else Top(p).alreadySeen - {KeyName(p)})
            && r.stack[|p.stack| - 1].currentKey == CurrentKey(p)
            && (Writable(Top(p).container, CurrentKey(p)) ==> Get(r.stack[|p.stack| - 1].container, CurrentKey(p)) == empty)
            && r.state == if isArray then ArrayState else ObjectState
  {
    hide Step, CreateNew, ContainerActionOf;
    ContainerTokenApplies(s, p, isArray);
    ContainerActionMeaning(s, p);
    var q := AfterContainerToken(p, isArray);
    if OpensOnValue(s, p) {
      assert Step(s, p, ']') == CreateNew(s, q, isArray);
      CreateNewShape(s, q, isArray);
      assert Top(q) == Top(p);
    } else {
      var q1 := WithTop(q, Top(q).(alreadySeen := Top(q).alreadySeen - {KeyName(q)}));
      CreateNewShape(s, q1, isArray);
    }
  }

  /** Otherwise the current frame closes, the closed container staying in
    * place; the root frame is never closed. */
  lemma ContainerTokenCloses(s: Settings, p: Parser, isArray: bool)
    requires Live(p) && p.state == (if isArray then ArrayDelimiter else ObjectDelimiter)
    requires !p.parsingLocked && !EscapeActive(p.currentEscapeDelimiter) && !Opens(s, p)
    ensures |p.stack| > 1 ==> Step(s, p, ']').stack == PopStack(p.stack)
    ensures |p.stack| == 1 ==> Step(s, p, ']').stack == p.stack
    ensures Step(s, p, ']').state == if isArray then ArrayState else ObjectState
  {
    hide Step, EmitEnd, EmitEndData, ContainerActionOf, PopStack;
    ContainerTokenApplies(s, p, isArray);
    ContainerActionMeaning(s, p);
  }

  // ---------------------------------------------------------------------
  // Keys.
  // ---------------------------------------------------------------------

  /** In an array frame the key is always an index below the next automatic
    * index, which never decreases: a name `parseInt` reads is the index,
    * any other name takes the next automatic one. In an object frame a
    * non-empty name becomes the key, flagged as seen when the object has
    * it already; an empty name changes nothing. */
  lemma NextKeyRules(s: Settings, p: Parser)
    requires Live(p)
    ensures var r := NextKey(s, p); var f := Top(p);
            f.container.Arr? ==>
              CurrentKey(r).Index? && CurrentKey(r).i < Top(r).minArrayIndex
              && Top(r).minArrayIndex >= f.minArrayIndex && Top(r).container == f.container
    ensures var r := NextKey(s, p); var f := Top(p); var content := ContentOf(p.currentDelimiter);
            f.container.Arr? && content != "" && Decimal.ParseIntLenient(content).Some? ==>
              CurrentKey(r) == Index(Decimal.ParseIntLenient(content).value)
    ensures var r := NextKey(s, p); var f := Top(p); var content := ContentOf(p.currentDelimiter);
            f.container.Arr? && !(content != "" && Decimal.ParseIntLenient(content).Some?) ==>
              CurrentKey(r) == Index(f.minArrayIndex) && Top(r).minArrayIndex == f.minArrayIndex + 1
    ensures var r := NextKey(s, p); var f := Top(p); var content := ContentOf(p.currentDelimiter);
            !f.container.Arr? && content != "" ==>
              CurrentKey(r) == Name(content)
              && (content in Top(r).alreadySeen <==> content in f.alreadySeen || (f.container.Obj? && content in f.container.fields))
    ensures !Top(p).container.Arr? && ContentOf(p.currentDelimiter) == "" ==> NextKey(s, p) == p
    ensures NextKey(s, p).stack[..|p.stack| - 1] == p.stack[..|p.stack| - 1]
  {
  }

  /** The first non-empty key of the root replaces an untouched default
    * field `""` by `null`. */
  lemma NextKeyNullsDefault(s: Settings, p: Parser)
    requires Live(p) && Top(p).container.Obj? && ContentOf(p.currentDelimiter) != ""
    requires s.defaultFieldName in Top(p).container.fields && Top(p).container.fields[s.defaultFieldName] == Str("")
    ensures Top(NextKey(s, p)).container == Obj(Top(p).container.fields[s.defaultFieldName := Null])
  {
  }

  // ---------------------------------------------------------------------
  // Parts.
  // ---------------------------------------------------------------------

  /** `[Pp]` on an unlocked field: an empty field becomes `[""]`, a string
    * `s` becomes `[s, ""]`, both now implicit arrays; an array gets one more
    * empty part. A locked field is left alone. */
  lemma AddPartShapes(s: Settings, p: Parser)
    requires Live(p)
    ensures KeyName(p) in p.dataInsertionLocks ==> AddPart(s, p) == p
    ensures var v := Latest(p); var r := AddPart(s, p);
            KeyName(p) !in p.dataInsertionLocks && Writable(Top(p).container, CurrentKey(p)) ==>
              CurrentKey(r) == CurrentKey(p)
              && (!Truthy(v) ==> Latest(r) == Arr([Str("")]) && KeyName(p) in Top(r).implicitArrays)
              && (v.Str? && Truthy(v) ==> Latest(r) == Arr([v, Str("")]) && KeyName(p) in Top(r).implicitArrays)
              && (v.Arr? ==> Latest(r) == Arr(v.elems + [Str("")]))
  {
    hide EmitEnd, Put;
  }

  // ---------------------------------------------------------------------
  // Documents.
  // ---------------------------------------------------------------------

  lemma CloseKeepsDocuments(s: Settings, p: Parser)
    requires Live(p)
    ensures SameReader(AslanTsSpec.Close(s, p), p)
  {
    hide EmitEnd, EmitEndData, StoreCurrentValue;
    StoreKeepsReader(s, EmitEndData(s, EmitEnd(s, p)));
  }

  /** Starting the next document keeps every earlier result (the closed
    * document included) and appends a fresh root object. */
  lemma NextDocumentResults(s: Settings, p: Parser)
    requires Live(p)
    ensures Results(NextDocument(s, p)) == Results(AslanTsSpec.Close(s, p)) + [RootFrame(s).container]
    ensures Results(AslanTsSpec.Close(s, p)) == p.finished + (if p.rootListed then [GetResult(AslanTsSpec.Close(s, p))] else [])
    ensures MultiAslanIndex(NextDocument(s, p)) == |Results(NextDocument(s, p))| - 1
  {
    hide AslanTsSpec.Close;
    CloseKeepsDocuments(s, p);
  }

  /** `[Pg]` unlocks parsing; under strict start, and not right after a
    * STOP, it starts a new document. */
  lemma GoToken(s: Settings, p: Parser)
    requires Live(p)
    ensures !EndGoDelimiter(s, p).parsingLocked && !EndGoDelimiter(s, p).didStop && EndGoDelimiter(s, p).state == GoState
    ensures s.strictStart && !p.didStop ==> Results(EndGoDelimiter(s, p)) == Results(AslanTsSpec.Close(s, p.(state := GoState, delimiterBuffer := "", currentValue := "", parsingLocked := false))) + [RootFrame(s).container]
    ensures !(s.strictStart && !p.didStop) ==> EndGoDelimiter(s, p).stack == p.stack && Results(EndGoDelimiter(s, p)) == Results(p)
  {
    hide AslanTsSpec.Close;
    var p1 := p.(state := GoState, delimiterBuffer := "", currentValue := "", parsingLocked := false);
    if s.strictStart && !p.didStop {
      NextDocumentResults(s, p1);
      CloseKeepsDocuments(s, p1);
    }
  }

  /** `[Ps]` under strict end closes the document and starts the next;
    * under strict start as well, parsing is locked until the next `[Pg]`. */
  lemma StopToken(s: Settings, p: Parser)
    requires Live(p)
    ensures s.strictEnd ==> EndStopDelimiter(s, p).state == Start && EndStopDelimiter(s, p).didStop
    ensures s.strictEnd ==> (EndStopDelimiter(s, p).parsingLocked <==> s.strictStart || p.parsingLocked)
    ensures s.strictEnd ==> |EndStopDelimiter(s, p).stack| == 1
    ensures !s.strictEnd ==> EndStopDelimiter(s, p) == p.(state := StopState, delimiterBuffer := "", currentValue := "")
  {
    hide AslanTsSpec.Close;
    var p1 := p.(state := StopState, delimiterBuffer := "", currentValue := "");
    if s.strictEnd {
      var p2 := if s.strictStart then p1.(parsingLocked := true) else p1;
      CloseKeepsDocuments(s, p2);
    }
  }

  /** While locked, only `[` is looked at. */
  lemma LockedIgnoresText(s: Settings, p: Parser, c: char)
    requires Live(p) && p.state == Locked && c != '['
    ensures Step(s, p, c) == p
  {
    hide Step;
    StepDispatch(s, p, c);
  }

  /** A locked parser that finds a token other than GO goes back to the
    * locked state (unless strict start, where the token is read). */
  lemma LockedSkipsTokens(s: Settings, p: Parser, c: char)
    requires Live(p) && p.state == Delimiter && p.parsingLocked && c != 'g' && !s.strictStart
    ensures Step(s, p, c) == p.(state := Locked)
  {
    hide Step;
    StepDispatch(s, p, c);
  }

  // ---------------------------------------------------------------------
  // Instructions.
  // ---------------------------------------------------------------------

  /** The instructions registered at part `k`, in registration order. */
  function OnPart(instrs: seq<Registered>, k: int): (r: seq<Registered>)
    ensures forall i :: 0 <= i < |r| ==> r[i].partIndex == k && r[i] in instrs
    ensures (exists i :: 0 <= i < |instrs| && instrs[i].partIndex == k) <==> r != []
    decreases |instrs|
  {
    if instrs == [] then []
    else
      var init := instrs[..|instrs| - 1];
      var ins := instrs[|instrs| - 1];
      assert forall i :: 0 <= i < |init| ==> init[i] == instrs[i];
      OnPart(init, k) + (if ins.partIndex == k then [ins] else [])
  }

  lemma OnPartSnoc(a: seq<Registered>, x: Registered, k: int)
    ensures OnPart(a + [x], k) == OnPart(a, k) + (if x.partIndex == k then [x] else [])
  {
    assert (a + [x])[..|a|] == a;
  }

  lemma InfosSnoc(a: seq<Registered>, x: Registered)
    ensures Infos(a + [x]) == Infos(a) + [Info(x)]
  {
    assert (a + [x])[..|a|] == a;
  }

  /** Grouping by part index keeps, for each part, exactly the instructions
    * registered at that part, in order; a part has a group exactly when it
    * has an instruction. */
  lemma {:induction false} GroupByPartFilters(instrs: seq<Registered>, k: int)
    ensures k in GroupByPart(instrs) <==> OnPart(instrs, k) != []
    ensures k in GroupByPart(instrs) ==> GroupByPart(instrs)[k] == Infos(OnPart(instrs, k))
    decreases |instrs|
  {
    hide OnPart, Infos;
    if instrs != [] {
      var init := instrs[..|instrs| - 1];
      var ins := instrs[|instrs| - 1];
      GroupByPartFilters(init, k);
      assert instrs == init + [ins];
      OnPartSnoc(init, ins, k);
      if ins.partIndex == k {
        InfosSnoc(OnPart(init, k), ins);
        if k !in GroupByPart(init) {
          assert Infos([]) == [];
        }
      }
    }
  }

  /** The end-data event of an implicit array has one part per element, the
    * `i`-th carrying the element and the instructions registered at part
    * `i` (absent for a part without any). */
  lemma EndDataParts(s: Settings, p: Parser)
    requires Live(p) && Latest(p).Arr? && KeyName(p) in Top(p).implicitArrays
    ensures var e := EndDataEventOf(s, p).value; var xs := Latest(p).elems;
            |e.parts| == |xs|
            && forall i :: 0 <= i < |xs| ==>
                 e.parts[i].value == xs[i] && e.parts[i].partIndex == i
                 && e.parts[i].instructions == (if OnPart(Top(p).instructions, i) == [] then None else Some(Infos(OnPart(Top(p).instructions, i))))
  {
    hide GroupByPart, OnPart, Infos, PathOf;
    var xs := Latest(p).elems;
    forall i | 0 <= i < |xs|
      ensures (i in GroupByPart(Top(p).instructions)) == (OnPart(Top(p).instructions, i) != [])
      ensures i in GroupByPart(Top(p).instructions) ==> GroupByPart(Top(p).instructions)[i] == Infos(OnPart(Top(p).instructions, i))
    {
      GroupByPartFilters(Top(p).instructions, i);
    }
  }

  /** A complete instruction token registers one instruction at the current
    * key, with its name, arguments and the position where the next text
    * will go, unless the key was already seen and is KEEP_FIRST; the field
    * itself is not changed. */
  lemma InstructionRegistered(s: Settings, p: Parser, at: Indices)
    requires Live(p)
    ensures var r := CompleteInstruction(s, p, at); var key := KeyName(p);
            var blocked := key in Top(p).alreadySeen && key in p.dataInsertionTypes && p.dataInsertionTypes[key] == KeepFirst;
            r.stack[..|r.stack| - 1] == p.stack[..|p.stack| - 1] && |r.stack| == |p.stack|
            && Top(r).container == Top(p).container && CurrentKey(r) == CurrentKey(p)
            && Top(r).instructions
               == Top(p).instructions
                  + (if blocked then [] else [Registered(CurrentKey(p), ContentOf(p.currentDelimiter), at.index, ArgsOf(p.currentDelimiter), at.partIndex)])
  {
    hide EmitPrimitive, EmitImplicit, WithTop;
    var key := KeyName(p);
    if key !in Top(p).alreadySeen || !(key in p.dataInsertionTypes && p.dataInsertionTypes[key] == KeepFirst) {
      var ins := Registered(CurrentKey(p), ContentOf(p.currentDelimiter), at.index, ArgsOf(p.currentDelimiter), at.partIndex);
      var p1 := WithTop(p, Top(p).(instructions := Top(p).instructions + [ins]));
      var p2 := if !TypeofObject(Latest(p1)) then EmitPrimitive(s, p1, ContentTag) else p1;
      assert p2.stack == p1.stack;
      var p3 := if key in Top(p2).implicitArrays then EmitImplicit(s, p2, ContentTag) else p2;
      assert p3.stack == p1.stack;
      assert CompleteInstruction(s, p, at) == p3;
    }
  }

  /** The position recorded for an instruction is the end of the field's
    * text, or of its last part; there is none (a `TypeError`) exactly when
    * the field is an array that is empty or ends in `null` or a hole. */
  lemma InstructionPosition(v: Value)
    ensures InstructionIndices(v).None? <==>
              v.Arr? && (v.elems == [] || v.elems[|v.elems| - 1].Null? || v.elems[|v.elems| - 1].Undefined?)
    ensures v.Str? ==> InstructionIndices(v) == Some(Indices(|v.s|, 0))
    ensures v.Arr? && InstructionIndices(v).Some? ==>
              InstructionIndices(v).value == Indices(LengthOf(v.elems[|v.elems| - 1]), |v.elems| - 1)
    ensures !v.Arr? && !v.Str? ==> InstructionIndices(v) == Some(Indices(0, 0))
  {
  }

  /** When the position lookup throws, the closing `]` of an instruction
    * token, with or without arguments, leaves the parser as it was: nothing
    * is registered and no content event is emitted. */
  lemma InstructionTypeErrorKeepsState(s: Settings, p: Parser)
    requires Live(p) && !p.parsingLocked
    requires InstructionIndices(Latest(p)).None?
    ensures p.state == InstructionDelimiterName && NameStepOf(ContentOf(p.currentDelimiter), ']', true) == EndAt ==> Step(s, p, ']') == p
    ensures p.state == InstructionDelimiterArgs ==> Step(s, p, ']') == p
  {
    hide Step;
    if p.state == InstructionDelimiterName {
      InstructionNameStep(s, p, ']');
    }
    StepDispatchNames(s, p, ']');
  }
}
