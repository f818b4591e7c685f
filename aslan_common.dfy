// Vocabulary shared by the two ASLAN decoders (TypeScript and Rust): the
// delimiter kinds, the parser states, the value tree, keys, settings, the
// token-name grammar and the object/array open-or-close heuristic.
module AslanCommon {
  import opened Wrappers
  import History
  import Decimal

  /** The kind letter after `[` + prefix. */
  datatype DelimiterType = Data | Object | Instruction | Array | Comment | Escape | Part | Void | Go | Stop

  /** The kind letters the decoder knows; any other ASCII letter or digit is
    * a reserved delimiter. */
  function KindOf(c: char): (r: Option<DelimiterType>)
    ensures r.Some? <==> c in "doiacepvgs"
  {
    match c
    case 'd' => Some(Data)
    case 'o' => Some(Object)
    case 'i' => Some(Instruction)
    case 'a' => Some(Array)
    case 'c' => Some(Comment)
    case 'e' => Some(Escape)
    case 'p' => Some(Part)
    case 'v' => Some(Void)
    case 'g' => Some(Go)
    case 's' => Some(Stop)
    case _ => None
  }

  /** What a repeated data key does. */
  datatype InsertionType = Default | Append | KeepFirst | KeepLast

  /** The first argument of a data token selects the insertion type. */
  function InsertionFromArg(arg: string): (r: InsertionType)
    ensures r == Append <==> arg == "a"
    ensures r == KeepFirst <==> arg == "f"
    ensures r == KeepLast <==> arg == "l"
  {
    if arg == "a" then Append else if arg == "f" then KeepFirst else if arg == "l" then KeepLast else Default
  }

  /** The character-level states of the decoder. */
  datatype ParserState =
    | GoDelimiter | StopDelimiter | Start | MaybeDelimiter | Delimiter | ReservedDelimiter
    | ObjectState | ArrayState | CommentState | EscapeState
    | CommentDelimiter | EscapeDelimiter | EscapeDelimiterName
    | InstructionDelimiter | InstructionDelimiterName | InstructionDelimiterArgs
    | DataDelimiter | DataDelimiterName | DataDelimiterArgs
    | ObjectDelimiter | ArrayDelimiter | VoidDelimiter | PartDelimiter
    | DataState | GoState | StopState | Locked

  /** The state a kind letter leads to. */
  function DelimiterStateFor(k: DelimiterType): ParserState
  {
    match k
    case Data => DataDelimiter
    case Object => ObjectDelimiter
    case Instruction => InstructionDelimiter
    case Array => ArrayDelimiter
    case Comment => CommentDelimiter
    case Escape => EscapeDelimiter
    case Part => PartDelimiter
    case Void => VoidDelimiter
    case Go => GoDelimiter
    case Stop => StopDelimiter
  }

  /** An ASLAN value: a string, `null`, an object, an array, or (TypeScript
    * only) `undefined`, which stands for a missing property or an array hole. */
  datatype Value = Str(s: string) | Null | Obj(fields: map<string, Value>) | Arr(elems: seq<Value>) | Undefined
  {
    /** `Array.isArray(v) || typeof v === 'object' && v !== null` in Rust's
      * words: `is_object() || is_array()`. */
    predicate IsContainer() { Obj? || Arr? }
  }

  /** JavaScript truthiness of a value. */
  predicate Truthy(v: Value)
  {
    match v
    case Str(s) => s != ""
    case Obj(_) => true
    case Arr(_) => true
    case _ => false
  }

  /** The whitespace `trim()` removes (the ASCII part of it). */
  predicate IsWhitespace(c: char)
  {
    c == ' ' || c == '\t' || c == '\n' || c == '\r' || c == '\U{000B}' || c == '\U{000C}'
  }

  predicate Blank(s: string)
  {
    forall i :: 0 <= i < |s| ==> IsWhitespace(s[i])
  }

  /** `getObjectSafeLatestResult()` taken as a condition: a string counts
    * when it is non-empty (after trimming, if whitespace is collapsed); any
    * container counts; `null` and a missing value do not. */
  predicate ObjectSafe(collapse: bool, v: Value)
  {
    match v
    case Str(s) => if collapse then !Blank(s) else s != ""
    case _ => Truthy(v)
  }

  lemma ObjectSafeMeaning(collapse: bool, v: Value)
    ensures v.IsContainer() ==> ObjectSafe(collapse, v)
    ensures (v.Null? || v.Undefined?) ==> !ObjectSafe(collapse, v)
    ensures v.Str? && !collapse ==> (ObjectSafe(collapse, v) <==> v.s != "")
    ensures v.Str? && collapse ==> (ObjectSafe(collapse, v) <==> exists i :: 0 <= i < |v.s| && !IsWhitespace(v.s[i]))
  {
  }

  /** The current key of a frame: a property name, or an array index. */
  datatype Key = Name(name: string) | Index(i: int)

  /** The property name a key addresses (`String(key)`). */
  function PropertyName(k: Key): string
  {
    match k
    case Name(s) => s
    case Index(i) => Decimal.IntText(i)
  }

  /** The parser options (`ASLANParserSettings`); the listener lists are not
    * part of the model. `appendSeparator` exists only in the Rust settings. */
  datatype Settings = Settings(
    prefix: string,
    defaultFieldName: string,
    strictStart: bool,
    strictEnd: bool,
    emitContent: bool,
    emitEnd: bool,
    emitEndData: bool,
    multiAslanOutput: bool,
    collapseObjectStartWhitespace: bool,
    appendSeparator: string)

  /** `ASLANDefaultParserSettings` / `ASLANParserSettings::default()`. */
  const DefaultSettings := Settings("aslan", "_default", false, false, true, true, true, false, true, "")

  /** The text that opens every token: `[` followed by the prefix. */
  function OpenSubstring(s: Settings): string
  {
    "[" + s.prefix
  }

  // ---------------------------------------------------------------------
  // Token names.
  // ---------------------------------------------------------------------

  /** `/^[a-zA-Z0-9]$/`, Rust's `is_ascii_alphanumeric`. */
  predicate IsAlnum(c: char)
  {
    'a' <= c <= 'z' || 'A' <= c <= 'Z' || '0' <= c <= '9'
  }

  /** `/^[a-zA-Z0-9_]$/`. */
  predicate IsNameChar(c: char)
  {
    IsAlnum(c) || c == '_'
  }

  predicate EndsWithUnderscore(s: string)
  {
    |s| > 0 && s[|s| - 1] == '_'
  }

  /** A name the decoder accepts for data, instructions and escapes: only
    * name characters, neither starting nor ending with `_` (the empty name
    * passes here; only `:` after it is refused). */
  predicate ValidName(s: string)
  {
    (forall i :: 0 <= i < |s| ==> IsNameChar(s[i])) && (|s| > 0 ==> s[0] != '_') && !EndsWithUnderscore(s)
  }

  /** What the name states do with one more character of the name being
    * read: accept it into the name, end it (`]`, or `:` after a non-empty
    * name) or refuse it, which sends the token back to text. */
  datatype NameStep = Extend | EndAt | Refuse

  function NameStepOf(content: string, c: char, allowArgs: bool): (r: NameStep)
    ensures r == Extend <==> IsNameChar(c) && !(c == '_' && content == "")
    ensures r == EndAt <==> ((c == ']' || (allowArgs && c == ':' && content != "")) && !EndsWithUnderscore(content))
  {
    if allowArgs && content != "" && c == ':' then (if EndsWithUnderscore(content) then Refuse else EndAt)
    else if c == '_' && content == "" then Refuse
    else if c == ']' then (if EndsWithUnderscore(content) then Refuse else EndAt)
    else if !IsNameChar(c) then Refuse
    else Extend
  }

  /** A name is read to its end without refusal exactly when it is valid:
    * each prefix extends, and the terminator is accepted. */
  lemma {:induction false} NameAcceptedIffValid(s: string, allowArgs: bool)
    ensures ((forall i :: 0 <= i < |s| ==> NameStepOf(s[..i], s[i], allowArgs) == Extend)
             && NameStepOf(s, ']', allowArgs) == EndAt)
            <==> ValidName(s)
  {
    if ValidName(s) {
      forall i | 0 <= i < |s|
        ensures NameStepOf(s[..i], s[i], allowArgs) == Extend
      {
        if i == 0 {
          assert s[0] != '_';
        }
      }
    }
    if (forall i :: 0 <= i < |s| ==> NameStepOf(s[..i], s[i], allowArgs) == Extend) && NameStepOf(s, ']', allowArgs) == EndAt {
      forall i | 0 <= i < |s|
        ensures IsNameChar(s[i])
      {
        assert NameStepOf(s[..i], s[i], allowArgs) == Extend;
      }
      if |s| > 0 {
        assert s[..0] == "";
        assert NameStepOf(s[..0], s[0], allowArgs) == Extend;
      }
    }
  }

  // ---------------------------------------------------------------------
  // The open-or-close heuristic of object and array tokens.
  // ---------------------------------------------------------------------

  /** The second most recent delimiter kind, ignoring comments and escapes. */
  function SecondMaterial(recent: seq<DelimiterType>): Option<DelimiterType>
  {
    History.NthNotIn(recent, 2, {Comment, Escape})
  }

  /** What a complete `[Po]` or `[Pa]` does: open a new container at the
    * current key (after clearing the key's already-seen flag, for a repeated
    * key), close the current frame, or nothing when only the root is left. */
  datatype ContainerAction = Open | ClearSeenAndOpen | Close | KeepRoot

  /** The nested conditions of the source, with `safe` the truth of
    * `getObjectSafeLatestResult()`, `objectTyped` the container test on the
    * field (in TypeScript `typeof … === 'object'`, true for `null` too),
    * `secondIsData` whether the second most recent material delimiter is
    * DATA, `seen` the key's already-seen flag and `depth` the stack height. */
  function ContainerDecision(safe: bool, objectTyped: bool, secondIsData: bool, seen: bool, depth: nat): (r: ContainerAction)
    ensures r == Open <==> secondIsData && (!safe || objectTyped)
    ensures r == ClearSeenAndOpen <==> !(secondIsData && (!safe || objectTyped)) && seen
    ensures r == Close <==> !(secondIsData && (!safe || objectTyped)) && !seen && depth > 1
  {
    if safe || !secondIsData then
      if !objectTyped || !secondIsData then
        if seen then ClearSeenAndOpen
        else if depth > 1 then Close
        else KeepRoot
      else Open
    else Open
  }

  /** A container opens exactly when the field is empty and the second most
    * recent material delimiter is DATA, or the field already holds an
    * object-typed value and that delimiter is DATA, or the key was flagged as
    * already seen; otherwise the frame closes, and the root frame never does. */
  lemma OpensIff(safe: bool, objectTyped: bool, secondIsData: bool, seen: bool, depth: nat)
    ensures ContainerDecision(safe, objectTyped, secondIsData, seen, depth) in {Open, ClearSeenAndOpen}
            <==> (!safe && secondIsData) || (objectTyped && secondIsData) || seen
    ensures depth <= 1 ==> ContainerDecision(safe, objectTyped, secondIsData, seen, depth) != Close
  {
  }

  /** Right after `[Pa]` (so ARRAY is the most recent material kind), a
    * `[Po]` finds ARRAY as its second most recent material delimiter, which
    * is not DATA: it closes the array frame instead of opening an object in
    * it, unless the key was seen before or only the root is open. */
  lemma ArrayThenObjectCloses(recent: seq<DelimiterType>, safe: bool, objectTyped: bool, depth: nat)
    requires depth > 1
    ensures ContainerDecision(safe, objectTyped, SecondMaterial(History.Added(History.Added(recent, Array, 5), Object, 5)) == Some(Data), false, depth) == Close
  {
    var r := History.Added(History.Added(recent, Array, 5), Object, 5);
    assert r[0] == Object && r[1] == Array;
    History.WithoutSnoc(r, 0, {Comment, Escape});
    History.WithoutSnoc(r, 1, {Comment, Escape});
    assert r[..0] == [];
    History.RankAt(r, 1, {Comment, Escape});
  }

  /** With a bare `[Pd]` between `[Pa]` and `[Po]`, the second most recent
    * material delimiter is DATA, and the `[Po]` on the still empty element
    * opens an object in the array. */
  lemma ArrayDataObjectOpens(recent: seq<DelimiterType>, objectTyped: bool, seen: bool, depth: nat)
    ensures ContainerDecision(false, objectTyped, SecondMaterial(History.Added(History.Added(History.Added(recent, Array, 5), Data, 5), Object, 5)) == Some(Data), seen, depth) == Open
  {
    var r := History.Added(History.Added(History.Added(recent, Array, 5), Data, 5), Object, 5);
    assert r[0] == Object && r[1] == Data;
    History.WithoutSnoc(r, 0, {Comment, Escape});
    History.WithoutSnoc(r, 1, {Comment, Escape});
    assert r[..0] == [];
    History.RankAt(r, 1, {Comment, Escape});
  }
}
