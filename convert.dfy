// json2aslan's `convert`: a depth-first walk of a parsed JSON value with an
// explicit stack, writing one ASLAN token per value.
module Json2Aslan {
  import opened Wrappers
  import Decimal

  /** A value as `JSON.parse` returns it. Numbers carry the text JavaScript's
    * `String(n)` gives them; object members are listed in `Object.keys`
    * order. */
  datatype Json =
    | JNull
    | JBool(b: bool)
    | JNumber(text: string)
    | JString(s: string)
    | JArray(elems: seq<Json>)
    | JObject(fields: seq<Member>)
  {
    predicate IsContainer() { JArray? || JObject? }
  }

  datatype Member = Member(key: string, value: Json)

  /** `Object.keys(null)` throws a `TypeError`. */
  datatype Error = KeysOfNull

  /** The text a template literal `${value}` gives a scalar. */
  function ScalarText(v: Json): string
  {
    match v
    case JNull => "null"
    case JBool(b) => if b then "true" else "false"
    case JNumber(t) => t
    case JString(s) => s
    case _ => ""
  }

  /** A bare token `[` prefix kind `]`. */
  function Token(prefix: string, kind: char): string
  {
    "[" + prefix + [kind] + "]"
  }

  /** A data token naming a key: `[` prefix `d_` key `]`. */
  function KeyToken(prefix: string, key: string): string
  {
    "[" + prefix + "d_" + key + "]"
  }

  // ---------------------------------------------------------------------
  // Reference definition: what the walk writes, as a recursive function.
  // ---------------------------------------------------------------------

  /** What follows a value's introducing token: a container token and its
    * members, or the scalar's text. */
  function Body(prefix: string, v: Json): string
    decreases v, 2
  {
    match v
    case JArray(es) => Token(prefix, 'a') + Elements(prefix, es)
    case JObject(fs) => Token(prefix, 'o') + Members(prefix, fs)
    case _ => ScalarText(v)
  }

  /** An array element: a container token, or `[Pd]` and the scalar text. */
  function Element(prefix: string, v: Json): string
    decreases v, 3
  {
    if v.IsContainer() then Body(prefix, v) else Token(prefix, 'd') + ScalarText(v)
  }

  function Elements(prefix: string, es: seq<Json>): string
    decreases es, 4
  {
    if es == [] then "" else Element(prefix, es[0]) + Elements(prefix, es[1..])
  }

  /** An object member: `[Pd_key]` and the member's body. */
  function Members(prefix: string, fs: seq<Member>): string
    decreases fs, 4
  {
    if fs == [] then "" else KeyToken(prefix, fs[0].key) + Body(prefix, fs[0].value) + Members(prefix, fs[1..])
  }

  /** `Object.keys` of a string lists its indices; each maps to a
    * one-character string. */
  function CharMembers(s: string, from: nat): (r: seq<Member>)
    ensures |r| == |s|
    ensures forall i :: 0 <= i < |s| ==> r[i] == Member(Decimal.NatText(from + i), JString([s[i]]))
    decreases |s|
  {
    if s == [] then [] else [Member(Decimal.NatText(from), JString([s[0]]))] + CharMembers(s[1..], from + 1)
  }

  /** The walk's output for a top-level value: an array's elements, an
    * object's members, a string's characters, nothing for a number or a
    * boolean (they have no keys), and a `TypeError` for `null`. */
  function Expected(prefix: string, root: Json): Result<string, Error>
  {
    match root
    case JNull => Err(KeysOfNull)
    case JArray(es) => Ok(Elements(prefix, es))
    case JObject(fs) => Ok(Members(prefix, fs))
    case JString(s) => Ok(Members(prefix, CharMembers(s, 0)))
    case _ => Ok("")
  }

  // ---------------------------------------------------------------------
  // The walk itself.
  // ---------------------------------------------------------------------

  /** A stack entry: an object still to be read key by key (`keys` is shifted
    * as it goes), or an array with a cursor `index`. */
  datatype Frame = KeyFrame(fields: seq<Member>) | IndexFrame(elems: seq<Json>, index: nat)

  /** What the rest of a frame will write. */
  function Remaining(prefix: string, f: Frame): string
  {
    match f
    case KeyFrame(fs) => Members(prefix, fs)
    case IndexFrame(es, i) => if i <= |es| then Elements(prefix, es[i..]) else ""
  }

  /** What the whole stack will write: the top frame first, then the frames
    * below it. */
  function Pending(prefix: string, stack: seq<Frame>): string
  {
    if stack == [] then "" else Remaining(prefix, stack[|stack| - 1]) + Pending(prefix, stack[..|stack| - 1])
  }

  // A size measure that shrinks on every iteration of the walk.
  function Size(v: Json): nat
    decreases v, 1
  {
    match v
    case JArray(es) => 1 + ElementsSize(es)
    case JObject(fs) => 1 + MembersSize(fs)
    case _ => 1
  }

  function ElementsSize(es: seq<Json>): nat
    decreases es, 2
  {
    if es == [] then 0 else 1 + Size(es[0]) + ElementsSize(es[1..])
  }

  function MembersSize(fs: seq<Member>): nat
    decreases fs, 2
  {
    if fs == [] then 0 else 1 + Size(fs[0].value) + MembersSize(fs[1..])
  }

  function FrameSize(f: Frame): nat
  {
    match f
    case KeyFrame(fs) => MembersSize(fs)
    case IndexFrame(es, i) => if i <= |es| then ElementsSize(es[i..]) else 0
  }

  function StackSize(stack: seq<Frame>): nat
  {
    if stack == [] then 0 else FrameSize(stack[|stack| - 1]) + StackSize(stack[..|stack| - 1])
  }

  lemma ElementsFrom(prefix: string, es: seq<Json>, i: nat)
    requires i < |es|
    ensures Elements(prefix, es[i..]) == Element(prefix, es[i]) + Elements(prefix, es[i + 1..])
    ensures ElementsSize(es[i..]) == 1 + Size(es[i]) + ElementsSize(es[i + 1..])
  {
    assert es[i..][1..] == es[i + 1..];
  }

  lemma Push(prefix: string, stack: seq<Frame>, f: Frame)
    ensures Pending(prefix, stack + [f]) == Remaining(prefix, f) + Pending(prefix, stack)
    ensures StackSize(stack + [f]) == FrameSize(f) + StackSize(stack)
  {
    assert (stack + [f])[..|stack|] == stack;
  }

  /** The stack after reading one member or element `v` from the top frame,
    * which has become `top`: a container pushes its own frame. */
  function Descend(rest: seq<Frame>, top: Frame, v: Json): seq<Frame>
  {
    match v
    case JArray(es) => (rest + [top]) + [IndexFrame(es, 0)]
    case JObject(fs) => (rest + [top]) + [KeyFrame(fs)]
    case _ => rest + [top]
  }

  /** What the walk writes for `v` once its introducing token is out. */
  function Immediate(prefix: string, v: Json): string
  {
    match v
    case JArray(_) => Token(prefix, 'a')
    case JObject(_) => Token(prefix, 'o')
    case _ => ScalarText(v)
  }

  /** The members or elements a container still has to write. */
  function Inner(prefix: string, v: Json): string
  {
    match v
    case JArray(es) => Elements(prefix, es)
    case JObject(fs) => Members(prefix, fs)
    case _ => ""
  }

  function InnerSize(v: Json): nat
  {
    match v
    case JArray(es) => ElementsSize(es)
    case JObject(fs) => MembersSize(fs)
    case _ => 0
  }

  lemma PushTwo(prefix: string, rest: seq<Frame>, top: Frame, f: Frame)
    ensures Pending(prefix, (rest + [top]) + [f]) == Remaining(prefix, f) + (Remaining(prefix, top) + Pending(prefix, rest))
    ensures StackSize((rest + [top]) + [f]) == FrameSize(f) + FrameSize(top) + StackSize(rest)
  {
    Push(prefix, rest + [top], f);
    Push(prefix, rest, top);
  }

  lemma DescendPending(prefix: string, rest: seq<Frame>, top: Frame, v: Json)
    ensures Pending(prefix, Descend(rest, top, v))
            == Inner(prefix, v) + (Remaining(prefix, top) + Pending(prefix, rest))
    ensures StackSize(Descend(rest, top, v)) == InnerSize(v) + FrameSize(top) + StackSize(rest)
  {
    if v.JArray? {
      assert v.elems[0..] == v.elems;
      PushTwo(prefix, rest, top, IndexFrame(v.elems, 0));
    } else if v.JObject? {
      PushTwo(prefix, rest, top, KeyFrame(v.fields));
    } else {
      Push(prefix, rest, top);
      assert Inner(prefix, v) == "";
    }
  }

  lemma BodySplit(prefix: string, v: Json)
    ensures Body(prefix, v) == Immediate(prefix, v) + Inner(prefix, v)
    ensures InnerSize(v) < Size(v)
  {
  }

  lemma Regroup<T>(a: seq<T>, b: seq<T>, c: seq<T>, d: seq<T>, e: seq<T>)
    ensures ((a + (b + c)) + d) + e == (a + b) + (c + (d + e))
  {
  }

  lemma Regroup4<T>(a: seq<T>, c: seq<T>, d: seq<T>, e: seq<T>)
    ensures ((a + c) + d) + e == a + (c + (d + e))
  {
  }

  /** What one iteration appends for a member. */
  function MemberLead(prefix: string, key: string, v: Json): string
  {
    match v
    case JArray(_) => KeyToken(prefix, key) + Token(prefix, 'a')
    case JObject(_) => KeyToken(prefix, key) + Token(prefix, 'o')
    case _ => KeyToken(prefix, key) + ScalarText(v)
  }

  /** What one iteration appends for an array element. */
  function ElementLead(prefix: string, v: Json): string
  {
    match v
    case JArray(_) => Token(prefix, 'a')
    case JObject(_) => Token(prefix, 'o')
    case _ => Token(prefix, 'd') + ScalarText(v)
  }

  lemma MemberStep(prefix: string, rest: seq<Frame>, fs: seq<Member>)
    requires fs != []
    ensures MemberLead(prefix, fs[0].key, fs[0].value)
              + Pending(prefix, Descend(rest, KeyFrame(fs[1..]), fs[0].value))
            == Pending(prefix, rest + [KeyFrame(fs)])
    ensures StackSize(Descend(rest, KeyFrame(fs[1..]), fs[0].value)) < StackSize(rest + [KeyFrame(fs)])
  {
    var v, top := fs[0].value, KeyFrame(fs[1..]);
    Push(prefix, rest, KeyFrame(fs));
    DescendPending(prefix, rest, top, v);
    BodySplit(prefix, v);
    var k, i, n, m, p := KeyToken(prefix, fs[0].key), Immediate(prefix, v), Inner(prefix, v),
                         Members(prefix, fs[1..]), Pending(prefix, rest);
    assert MemberLead(prefix, fs[0].key, v) == k + i;
    assert Pending(prefix, rest + [KeyFrame(fs)]) == ((k + (i + n)) + m) + p;
    Regroup(k, i, n, m, p);
  }

  lemma ElementSplit(prefix: string, v: Json)
    ensures Element(prefix, v) == ElementLead(prefix, v) + Inner(prefix, v)
  {
    if v.IsContainer() {
      BodySplit(prefix, v);
    } else {
      assert Inner(prefix, v) == [];
    }
  }

  lemma ElementStep(prefix: string, rest: seq<Frame>, es: seq<Json>, i: nat)
    requires i < |es|
    ensures ElementLead(prefix, es[i]) + Pending(prefix, Descend(rest, IndexFrame(es, i + 1), es[i]))
            == Pending(prefix, rest + [IndexFrame(es, i)])
    ensures StackSize(Descend(rest, IndexFrame(es, i + 1), es[i])) < StackSize(rest + [IndexFrame(es, i)])
  {
    var v, top := es[i], IndexFrame(es, i + 1);
    Push(prefix, rest, IndexFrame(es, i));
    ElementsFrom(prefix, es, i);
    DescendPending(prefix, rest, top, v);
    BodySplit(prefix, v);
    ElementSplit(prefix, v);
    var l, n, m, p := ElementLead(prefix, v), Inner(prefix, v), Elements(prefix, es[i + 1..]), Pending(prefix, rest);
    assert Remaining(prefix, top) == m;
    assert Pending(prefix, rest + [IndexFrame(es, i)]) == ((l + n) + m) + p;
    Regroup4(l, n, m, p);
  }

  /** An exhausted frame adds nothing to what is pending. */
  lemma PopExhausted(prefix: string, rest: seq<Frame>, f: Frame)
    requires f.KeyFrame? ==> f.fields == []
    requires f.IndexFrame? ==> f.index >= |f.elems|
    ensures Pending(prefix, rest + [f]) == Pending(prefix, rest)
    ensures StackSize(rest + [f]) == StackSize(rest)
  {
    Push(prefix, rest, f);
    if f.IndexFrame? && f.index == |f.elems| {
      assert f.elems[f.index..] == [];
    }
  }

  lemma PendingNil(prefix: string)
    ensures Pending(prefix, []) == ""
  {
  }

  lemma Append<T>(o: seq<T>, a: seq<T>, p: seq<T>)
    ensures o + a + p == o + (a + p)
  {
  }

  /** The stack the walk starts from: the top-level value's own frame; a
    * string is read through its character keys, a number or a boolean has
    * no keys. */
  function InitialStack(root: Json): seq<Frame>
  {
    match root
    case JArray(es) => [IndexFrame(es, 0)]
    case JObject(fs) => [KeyFrame(fs)]
    case JString(s) => [KeyFrame(CharMembers(s, 0))]
    case _ => [KeyFrame([])]
  }

  lemma InitialPending(prefix: string, root: Json)
    requires !root.JNull?
    ensures Expected(prefix, root) == Ok(Pending(prefix, InitialStack(root)))
  {
    var stack := InitialStack(root);
    assert stack[..0] == [];
    assert Pending(prefix, []) == "";
    assert Pending(prefix, stack) == Remaining(prefix, stack[0]);
    if root.JArray? {
      assert root.elems[0..] == root.elems;
    }
  }

  /** One iteration of the walk on the top frame `current` (the frames
    * below it are `rest`): pop it when exhausted, otherwise consume one key or
    * index, returning the text to append and the new stack. */
  method Visit(prefix: string, rest: seq<Frame>, current: Frame) returns (piece: string, stack: seq<Frame>)
    ensures piece + Pending(prefix, stack) == Pending(prefix, rest + [current])
    ensures StackSize(stack) < StackSize(rest + [current])
            || (StackSize(stack) == StackSize(rest + [current]) && |stack| <= |rest|)
  {
    if current.KeyFrame? {
      if current.fields == [] {
        PopExhausted(prefix, rest, current);
        return "", rest;
      }
      var key := current.fields[0].key;
      var value := current.fields[0].value;
      MemberStep(prefix, rest, current.fields);
      stack := rest + [KeyFrame(current.fields[1..])];
      if value.JArray? {
        piece := KeyToken(prefix, key) + Token(prefix, 'a');
        stack := stack + [IndexFrame(value.elems, 0)];
      } else if value.JObject? {
        piece := KeyToken(prefix, key) + Token(prefix, 'o');
        stack := stack + [KeyFrame(value.fields)];
      } else {
        piece := KeyToken(prefix, key) + ScalarText(value);
      }
      assert stack == Descend(rest, KeyFrame(current.fields[1..]), value);
    } else {
      var i := current.index;
      if i >= |current.elems| {
        PopExhausted(prefix, rest, current);
        return "", rest;
      }
      var value := current.elems[i];
      ElementStep(prefix, rest, current.elems, i);
      stack := rest + [IndexFrame(current.elems, i + 1)];
      if value.JArray? {
        piece := Token(prefix, 'a');
        stack := stack + [IndexFrame(value.elems, 0)];
      } else if value.JObject? {
        piece := Token(prefix, 'o');
        stack := stack + [KeyFrame(value.fields)];
      } else {
        piece := Token(prefix, 'd') + ScalarText(value);
      }
      assert stack == Descend(rest, IndexFrame(current.elems, i + 1), value);
    }
  }

  /** `convert(json, aslanPrefix)` on an already parsed value. */
  method Convert(root: Json, prefix: string) returns (r: Result<string, Error>)
    ensures r == Expected(prefix, root)
  {
    if root.JNull? {
      return Err(KeysOfNull);
    }
    var stack: seq<Frame>;
    if root.JArray? {
      stack := [IndexFrame(root.elems, 0)];
    } else if root.JObject? {
      stack := [KeyFrame(root.fields)];
    } else if root.JString? {
      stack := [KeyFrame(CharMembers(root.s, 0))];
    } else {
      stack := [KeyFrame([])];
    }
    assert stack == InitialStack(root);
    InitialPending(prefix, root);
    var out := Walk(prefix, stack);
    r := Ok(out);
  }

  /** The `while (stack.length > 0)` loop: writes everything the stack has
    * pending. */
  method Walk(prefix: string, start: seq<Frame>) returns (out: string)
    ensures out == Pending(prefix, start)
  {
    PendingNil(prefix);
    hide Pending, StackSize;
    var stack := start;
    out := "";
    while |stack| > 0
      invariant out + Pending(prefix, stack) == Pending(prefix, start)
      decreases StackSize(stack), |stack|
    {
      var rest, current := stack[..|stack| - 1], stack[|stack| - 1];
      assert stack == rest + [current];
      var piece, next := Visit(prefix, rest, current);
      Append(out, piece, Pending(prefix, next));
      out := out + piece;
      stack := next;
    }
  }

  // ---------------------------------------------------------------------
  // The two object examples of json2aslan/test/convert.spec.ts (lines
  // 4-12), with `aslan` as any prefix `p`.
  // ---------------------------------------------------------------------

  /** One member in front of the others. */
  lemma MembersCons(prefix: string, m: Member, rest: seq<Member>)
    ensures Members(prefix, [m] + rest) == KeyToken(prefix, m.key) + Body(prefix, m.value) + Members(prefix, rest)
  {
    assert ([m] + rest)[1..] == rest;
  }

  /** The flat-object example: `{"name": "John", "age": 30}`. */
  lemma FlatExample(p: string)
    ensures Expected(p, JObject([Member("name", JString("John")), Member("age", JNumber("30"))]))
            == Ok(KeyToken(p, "name") + "John" + KeyToken(p, "age") + "30")
  {
    hide KeyToken;
    var age := [Member("age", JNumber("30"))];
    var full := [Member("name", JString("John")), Member("age", JNumber("30"))];
    MembersCons(p, age[0], []);
    assert [age[0]] + [] == age;
    var kn, ka := KeyToken(p, "name"), KeyToken(p, "age");
    assert ka + "30" + "" == ka + "30";
    assert Members(p, age) == ka + "30";
    MembersCons(p, full[0], age);
    assert [full[0]] + age == full;
    assert Members(p, full) == kn + "John" + (ka + "30");
    assert kn + "John" + (ka + "30") == kn + "John" + ka + "30";
  }

  /** The nested-object example: `{"name": "John", "age": 30, "address":
    * {"city": "New York", "state": "NY"}}`, written token by token. */
  lemma NestedExample(p: string)
    ensures Expected(p, JObject([Member("name", JString("John")), Member("age", JNumber("30")),
              Member("address", JObject([Member("city", JString("New York")), Member("state", JString("NY"))]))]))
            == Ok(KeyToken(p, "name") + "John" + KeyToken(p, "age") + "30" + KeyToken(p, "address") + Token(p, 'o')
                  + KeyToken(p, "city") + "New York" + KeyToken(p, "state") + "NY")
  {
    hide KeyToken, Token;
    var state := [Member("state", JString("NY"))];
    MembersCons(p, state[0], []);
    assert [state[0]] + [] == state;
    assert Members(p, state) == KeyToken(p, "state") + "NY";
    var inner := [Member("city", JString("New York"))] + state;
    MembersCons(p, Member("city", JString("New York")), state);
    assert Members(p, inner) == KeyToken(p, "city") + "New York" + (KeyToken(p, "state") + "NY");
    var address := [Member("address", JObject(inner))];
    MembersCons(p, address[0], []);
    assert [address[0]] + [] == address;
    assert Members(p, address) == KeyToken(p, "address") + (Token(p, 'o') + Members(p, inner));
    var age := [Member("age", JNumber("30"))] + address;
    MembersCons(p, Member("age", JNumber("30")), address);
    assert Members(p, age) == KeyToken(p, "age") + "30" + Members(p, address);
    var fs := [Member("name", JString("John"))] + age;
    MembersCons(p, Member("name", JString("John")), age);
    assert Members(p, fs) == KeyToken(p, "name") + "John" + Members(p, age);
    var kn, ka, kd, o, kc, ks := KeyToken(p, "name"), KeyToken(p, "age"), KeyToken(p, "address"), Token(p, 'o'), KeyToken(p, "city"), KeyToken(p, "state");
    assert kn + "John" + (ka + "30" + (kd + (o + (kc + "New York" + (ks + "NY")))))
           == kn + "John" + ka + "30" + kd + o + kc + "New York" + ks + "NY";
    assert fs == [Member("name", JString("John")), Member("age", JNumber("30")), Member("address", JObject(inner))];
    assert inner == [Member("city", JString("New York")), Member("state", JString("NY"))];
  }
}
