// The encoding the json2aslan tests expect from `convert`, next to the one
// the code writes (module Json2Aslan).
module Json2AslanFixed {
  import opened Wrappers
  import opened Json2Aslan

  // ---------------------------------------------------------------------
  // The encoding the array tests ask for (json2aslan/test/convert.spec.ts
  // lines 14-22): a top-level array is opened by `[Pa]`; every array
  // element is introduced by `[Pd]`, containers included; and a container
  // is closed by its own token when anything follows it, so that the next
  // element or member goes where it belongs. Without the `[Pd]`, the decoder
  // reads an `[Po]` right after `[Pa]` as closing the array (see
  // AslanCommon.ArrayThenObjectCloses).
  // ---------------------------------------------------------------------

  /** A value after its introducing token; `closed` says whether anything
    * follows it, in which case a container ends with its closing token. */
  function FixedBody(prefix: string, v: Json, closed: bool): string
    decreases v, 2
  {
    match v
    case JArray(es) => Token(prefix, 'a') + FixedElements(prefix, es, closed) + (if closed then Token(prefix, 'a') else "")
    case JObject(fs) => Token(prefix, 'o') + FixedMembers(prefix, fs, closed) + (if closed then Token(prefix, 'o') else "")
    case _ => ScalarText(v)
  }

  /** Every element but the last is followed by another one, so it is
    * closed; the last is closed when its array is. */
  function FixedElements(prefix: string, es: seq<Json>, closed: bool): string
    decreases es, 4
  {
    if es == [] then ""
    else Token(prefix, 'd') + FixedBody(prefix, es[0], closed || |es| > 1) + FixedElements(prefix, es[1..], closed)
  }

  function FixedMembers(prefix: string, fs: seq<Member>, closed: bool): string
    decreases fs, 4
  {
    if fs == [] then ""
    else KeyToken(prefix, fs[0].key) + FixedBody(prefix, fs[0].value, closed || |fs| > 1) + FixedMembers(prefix, fs[1..], closed)
  }

  function FixedExpected(prefix: string, root: Json): Result<string, Error>
  {
    match root
    case JNull => Err(KeysOfNull)
    case JArray(es) => Ok(Token(prefix, 'a') + FixedElements(prefix, es, false))
    case JObject(fs) => Ok(FixedMembers(prefix, fs, false))
    case JString(s) => Ok(FixedMembers(prefix, CharMembers(s, 0), false))
    case _ => Ok("")
  }

  /** No array anywhere inside the value, and in every object only the last
    * member may hold an object, so no container is ever followed by
    * anything. */
  predicate NeedsNoClose(v: Json)
    decreases v, 1
  {
    match v
    case JArray(_) => false
    case JObject(fs) => MembersNeedNoClose(fs)
    case _ => true
  }

  predicate MembersNeedNoClose(fs: seq<Member>)
    decreases fs, 2
  {
    fs == [] || (NeedsNoClose(fs[0].value) && (|fs| > 1 ==> !fs[0].value.IsContainer()) && MembersNeedNoClose(fs[1..]))
  }

  /** The correction only touches arrays and containers followed by
    * something: on other values the corrected encoding is the one the code
    * writes. */
  lemma {:induction false} FixedAgreesWhenNothingCloses(prefix: string, v: Json)
    requires NeedsNoClose(v)
    ensures FixedBody(prefix, v, false) == Body(prefix, v)
    decreases v, 1
  {
    if v.JObject? {
      FixedMembersAgree(prefix, v.fields);
    }
  }

  lemma {:induction false} FixedMembersAgree(prefix: string, fs: seq<Member>)
    requires MembersNeedNoClose(fs)
    ensures FixedMembers(prefix, fs, false) == Members(prefix, fs)
    decreases fs, 2
  {
    if fs != [] {
      FixedAgreesWhenNothingCloses(prefix, fs[0].value);
      FixedMembersAgree(prefix, fs[1..]);
    }
  }

  /** For such a top-level object (the flat and the nested examples), the
    * code already writes what is intended. */
  lemma FixedExpectedAgrees(prefix: string, fs: seq<Member>)
    requires MembersNeedNoClose(fs)
    ensures FixedExpected(prefix, JObject(fs)) == Expected(prefix, JObject(fs))
  {
    FixedMembersAgree(prefix, fs);
  }

  /** In the corrected encoding every element of an array, container or not,
    * starts with a bare data token, which is what advances the decoder to
    * the next index. */
  lemma FixedElementsStartWithData(prefix: string, es: seq<Json>, closed: bool)
    requires es != []
    ensures FixedElements(prefix, es, closed)[..|Token(prefix, 'd')|] == Token(prefix, 'd')
  {
  }

  /** A container that something follows ends with its own token, which
    * closes its frame before the next element or member is read. */
  lemma ClosedContainerEnds(prefix: string, v: Json)
    requires v.IsContainer()
    ensures var t := Token(prefix, if v.JArray? then 'a' else 'o');
            var b := FixedBody(prefix, v, true);
            |b| >= |t| && b[|b| - |t|..] == t
  {
  }

  /** The array-of-objects input of convert.spec.ts line 15, reduced to one
    * element with one member: `{"people": [{"name": "John"}]}`. The code
    * writes `[Po]` right after `[Pa]`; the corrected encoding has `[Pd]`
    * between them. */
  lemma ArrayOfObjects(p: string)
    ensures Expected(p, JObject([Member("people", JArray([JObject([Member("name", JString("John"))])]))]))
            == Ok(KeyToken(p, "people") + Token(p, 'a') + Token(p, 'o') + KeyToken(p, "name") + "John")
    ensures FixedExpected(p, JObject([Member("people", JArray([JObject([Member("name", JString("John"))])]))]))
            == Ok(KeyToken(p, "people") + Token(p, 'a') + Token(p, 'd') + Token(p, 'o') + KeyToken(p, "name") + "John")
  {
    hide KeyToken, Token;
    var name := [Member("name", JString("John"))];
    assert name[1..] == [];
    var es := [JObject(name)];
    assert es[1..] == [];
    var fs := [Member("people", JArray(es))];
    assert fs[1..] == [];
    assert Members(p, name) == KeyToken(p, "name") + "John";
    assert Elements(p, es) == Body(p, es[0]);
    assert Members(p, fs) == KeyToken(p, "people") + (Token(p, 'a') + (Token(p, 'o') + Members(p, name)));
    assert FixedMembers(p, name, false) == KeyToken(p, "name") + "John";
    assert FixedElements(p, es, false) == Token(p, 'd') + FixedBody(p, es[0], false);
    assert FixedMembers(p, fs, false) == KeyToken(p, "people") + (Token(p, 'a') + (Token(p, 'd') + (Token(p, 'o') + FixedMembers(p, name, false))));
    assert Expected(p, JObject(fs)) == Ok(Members(p, fs));
    assert FixedExpected(p, JObject(fs)) == Ok(FixedMembers(p, fs, false));
    var a, b, c, d, k := KeyToken(p, "people"), Token(p, 'a'), Token(p, 'd'), Token(p, 'o'), KeyToken(p, "name");
    assert a + (b + (d + (k + "John"))) == a + b + d + k + "John";
    assert a + (b + (c + (d + (k + "John")))) == a + b + c + d + k + "John";
  }

  // ---------------------------------------------------------------------
  // The two array tests of convert.spec.ts (lines 14-22), with `aslan` as
  // any prefix `p`.
  // ---------------------------------------------------------------------

  /** `{"name": name, "age": age}`, with the age a number. */
  function Person(name: string, age: string): Json
  {
    JObject([Member("name", JString(name)), Member("age", JNumber(age))])
  }

  /** The tokens of one person, as the tests write them: `[Po]`, then
    * `[Pd_name]` with the name and `[Pd_age]` with the age. */
  function PersonTokens(p: string, name: string, age: string): string
  {
    Token(p, 'o') + KeyToken(p, "name") + name + KeyToken(p, "age") + age
  }

  lemma PersonText(p: string, name: string, age: string, closed: bool)
    ensures FixedBody(p, Person(name, age), closed) == PersonTokens(p, name, age) + (if closed then Token(p, 'o') else "")
  {
    hide KeyToken, Token;
    var ms := [Member("name", JString(name)), Member("age", JNumber(age))];
    assert ms[1..] == [Member("age", JNumber(age))];
    assert ms[1..][1..] == [];
    assert FixedMembers(p, ms[1..], closed) == KeyToken(p, "age") + age;
    assert FixedMembers(p, ms, closed) == KeyToken(p, "name") + name + (KeyToken(p, "age") + age);
    var o, kn, ka, tail := Token(p, 'o'), KeyToken(p, "name"), KeyToken(p, "age"), if closed then Token(p, 'o') else "";
    assert o + (kn + name + (ka + age)) + tail == o + kn + name + ka + age + tail;
  }

  /** Two people as array elements: the first object is closed before the
    * second is introduced. */
  lemma TwoPeopleElements(p: string, n1: string, a1: string, n2: string, a2: string)
    ensures FixedElements(p, [Person(n1, a1), Person(n2, a2)], false)
            == Token(p, 'd') + PersonTokens(p, n1, a1) + Token(p, 'o') + Token(p, 'd') + PersonTokens(p, n2, a2)
  {
    PersonText(p, n1, a1, true);
    PersonText(p, n2, a2, false);
    hide KeyToken, Token, Person, FixedBody, PersonTokens;
    var es := [Person(n1, a1), Person(n2, a2)];
    assert es[1..] == [Person(n2, a2)];
    assert es[1..][1..] == [];
    var d, o, first, second := Token(p, 'd'), Token(p, 'o'), PersonTokens(p, n1, a1), PersonTokens(p, n2, a2);
    assert FixedBody(p, es[0], true) == first + o;
    assert FixedBody(p, es[1], false) == second + "";
    assert FixedElements(p, es[1..], false) == d + (second + "") + "";
    assert FixedElements(p, es, false) == d + (first + o) + (d + (second + "") + "");
    assert d + (first + o) + (d + (second + "") + "") == d + first + o + d + second;
  }

  /** `{"people": [first, second]}` is encoded as the test at line 16
    * expects: the array is the last member, so it stays open, and so does
    * the last person. */
  lemma PeopleMember(p: string, n1: string, a1: string, n2: string, a2: string)
    ensures FixedExpected(p, JObject([Member("people", JArray([Person(n1, a1), Person(n2, a2)]))]))
            == Ok(KeyToken(p, "people") + Token(p, 'a')
                  + Token(p, 'd') + PersonTokens(p, n1, a1) + Token(p, 'o') + Token(p, 'd') + PersonTokens(p, n2, a2))
  {
    var es := [Person(n1, a1), Person(n2, a2)];
    var fs := [Member("people", JArray(es))];
    assert fs[1..] == [];
    TwoPeopleElements(p, n1, a1, n2, a2);
    hide KeyToken, Token, Person, FixedElements, PersonTokens;
    var e := FixedElements(p, es, false);
    assert FixedBody(p, JArray(es), false) == Token(p, 'a') + e + "";
    hide FixedBody;
    assert FixedMembers(p, fs, false) == KeyToken(p, "people") + (Token(p, 'a') + e + "") + "";
    var d, o, first, second := Token(p, 'd'), Token(p, 'o'), PersonTokens(p, n1, a1), PersonTokens(p, n2, a2);
    assert KeyToken(p, "people") + (Token(p, 'a') + e + "") + ""
           == KeyToken(p, "people") + Token(p, 'a') + d + first + o + d + second;
  }

  /** The test's own people, John (30) and Jane (25). */
  lemma PeopleExample(p: string)
    ensures FixedExpected(p, JObject([Member("people", JArray([Person("John", "30"), Person("Jane", "25")]))]))
            == Ok(KeyToken(p, "people") + Token(p, 'a')
                  + Token(p, 'd') + PersonTokens(p, "John", "30") + Token(p, 'o') + Token(p, 'd') + PersonTokens(p, "Jane", "25"))
  {
    PeopleMember(p, "John", "30", "Jane", "25");
  }

  /** `[first, second]` at the top level is encoded as the test at line 21
    * expects: `[Pa]` first, then the same elements. */
  lemma TopLevelPeople(p: string, n1: string, a1: string, n2: string, a2: string)
    ensures FixedExpected(p, JArray([Person(n1, a1), Person(n2, a2)]))
            == Ok(Token(p, 'a') + Token(p, 'd') + PersonTokens(p, n1, a1) + Token(p, 'o') + Token(p, 'd') + PersonTokens(p, n2, a2))
  {
    TwoPeopleElements(p, n1, a1, n2, a2);
    hide KeyToken, Token, Person, FixedElements, PersonTokens;
    var d, o, first, second := Token(p, 'd'), Token(p, 'o'), PersonTokens(p, n1, a1), PersonTokens(p, n2, a2);
    var e := FixedElements(p, [Person(n1, a1), Person(n2, a2)], false);
    assert Token(p, 'a') + e == Token(p, 'a') + d + first + o + d + second;
  }

  /** The test's own people at the top level. */
  lemma TopLevelArrayExample(p: string)
    ensures FixedExpected(p, JArray([Person("John", "30"), Person("Jane", "25")]))
            == Ok(Token(p, 'a') + Token(p, 'd') + PersonTokens(p, "John", "30") + Token(p, 'o') + Token(p, 'd') + PersonTokens(p, "Jane", "25"))
  {
    TopLevelPeople(p, "John", "30", "Jane", "25");
  }
}
