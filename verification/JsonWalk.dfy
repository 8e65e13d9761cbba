/** The strict JSON walk: an explicit stack over the decoder's tokens, against
    a recursive definition on the values those tokens spell. */
module JsonWalk {
  import opened Common

  datatype Json = Obj(members: Members) | Arr(items: Items) | Str(s: string) | Other

  datatype Members = NoMembers | Member(key: string, value: Json, rest: Members)

  datatype Items = NoItems | Item(head: Json, tail: Items)

  datatype Token = LBrace | RBrace | LBracket | RBracket | Text(s: string) | Scalar

  /** How the decoder's tokens end. */
  datatype End = Eof | Malformed

  /** One step of a path from the root. */
  datatype Step = Field(key: string) | Element(index: int)

  datatype Result =
    | Accepted
    | Empty
    | NotObject
    | Trailing
    | Syntax
    | Duplicate(key: string, path: string)

  // The tokens of values.

  function Flatten(v: Json): (ts: seq<Token>)
    ensures |ts| > 0
  {
    match v
    case Obj(ms) => [LBrace] + FlattenMembers(ms) + [RBrace]
    case Arr(items) => [LBracket] + FlattenItems(items) + [RBracket]
    case Str(s) => [Text(s)]
    case Other => [Scalar]
  }

  function FlattenMembers(ms: Members): seq<Token> {
    match ms
    case NoMembers => []
    case Member(k, v, rest) => [Text(k)] + Flatten(v) + FlattenMembers(rest)
  }

  function FlattenItems(items: Items): seq<Token> {
    match items
    case NoItems => []
    case Item(v, rest) => Flatten(v) + FlattenItems(rest)
  }

  function FlattenAll(vs: seq<Json>): seq<Token> {
    if vs == [] then [] else Flatten(vs[0]) + FlattenAll(vs[1..])
  }

  // The recursive definition.

  function Seconded<T>(a: Option<T>, b: Option<T>): Option<T> { if a.Some? then a else b }

  function Under(step: Step, found: Option<seq<Step>>): Option<seq<Step>> {
    if found.Some? then Some([step] + found.value) else None
  }

  /** The path of the first repeated key, in document order. */
  function FirstDuplicate(v: Json): Option<seq<Step>> {
    match v
    case Obj(ms) => DuplicateMember(ms, {})
    case Arr(items) => DuplicateItem(items, 0)
    case _ => None
  }

  function DuplicateMember(ms: Members, seen: set<string>): Option<seq<Step>> {
    match ms
    case NoMembers => None
    case Member(k, v, rest) =>
      if k in seen then Some([Field(k)])
      else Seconded(Under(Field(k), FirstDuplicate(v)), DuplicateMember(rest, seen + {k}))
  }

  function DuplicateItem(items: Items, index: nat): Option<seq<Step>> {
    match items
    case NoItems => None
    case Item(v, rest) => Seconded(Under(Element(index), FirstDuplicate(v)), DuplicateItem(rest, index + 1))
  }

  function Digits(n: nat): string {
    if n < 10 then [('0' as int + n) as char] else Digits(n / 10) + [('0' as int + n % 10) as char]
  }

  /** The number a string of digits spells. */
  function Spelled(s: string): int {
    if s == "" then 0 else 10 * Spelled(s[..|s| - 1]) + (s[|s| - 1] as int - '0' as int)
  }

  /** An index is written as its decimal digits, without a leading zero. */
  lemma {:induction false} DigitsSpell(n: nat)
    ensures Digits(n) != "" && Spelled(Digits(n)) == n
    ensures forall i :: 0 <= i < |Digits(n)| ==> '0' <= Digits(n)[i] <= '9'
    ensures n > 0 ==> Digits(n)[0] != '0'
    decreases n
  {
    var s := Digits(n);
    assert s[|s| - 1] as int - '0' as int == n % 10;
    if n >= 10 {
      DigitsSpell(n / 10);
      assert s[..|s| - 1] == Digits(n / 10);
    } else {
      assert s[..|s| - 1] == "";
    }
  }

  function Decimal(n: int): string { if n < 0 then "-" + Digits(-n) else Digits(n) }

  /** A path as the error reports it; a dot separates a key from what is before it, if anything is. */
  function Render(path: seq<Step>): string
    decreases |path|
  {
    if path == [] then ""
    else
      var before := Render(path[..|path| - 1]);
      match path[|path| - 1]
      case Field(k) => (if |before| > 0 then before + "." else before) + k
      case Element(i) => before + "[" + Decimal(i) + "]"
  }

  /** A key after a key takes a dot, also across an index; a first key or index takes none. */
  lemma RenderedAs(a: string, b: string, i: nat, j: nat)
    ensures Render([Field(a)]) == a
    ensures a != "" ==> Render([Field(a), Field(b)]) == a + "." + b
    ensures Render([Field(a), Element(i), Element(j), Field(b)]) ==
      a + "[" + Digits(i) + "]" + "[" + Digits(j) + "]." + b
    ensures Render([Element(i), Field(b)]) == "[" + Digits(i) + "]." + b
  {
    hide Digits;
    var (x, y) := ([Field(a)], [Element(i)]);
    assert x[..0] == [] && y[..0] == [];
    assert [Field(a), Field(b)][..1] == x && [Element(i), Field(b)][..1] == y;
    assert [Field(a), Element(i)][..1] == x;
    assert [Field(a), Element(i), Element(j)][..2] == [Field(a), Element(i)];
    assert [Field(a), Element(i), Element(j), Field(b)][..3] == [Field(a), Element(i), Element(j)];
    assert Render(x) == a && Render(y) == "[" + Digits(i) + "]";
    assert Render([Field(a), Element(i)]) == a + "[" + Digits(i) + "]";
  }

  function LastKey(path: seq<Step>): string {
    if |path| > 0 && path[|path| - 1].Field? then path[|path| - 1].key else ""
  }

  function Report(path: seq<Step>): Result { Duplicate(LastKey(path), Render(path)) }

  /** What the walk should answer for the values of a body. */
  function Expected(vs: seq<Json>): Result {
    if vs == [] then Empty
    else if !vs[0].Obj? then NotObject
    else
      match FirstDuplicate(vs[0])
      case Some(path) => Report(path)
      case None => if |vs| == 1 then Accepted else Trailing
  }

  // The automaton.

  datatype Frame = Frame(isObject: bool, keys: set<string>, key: string, index: nat, wantsKey: bool)

  const OBJECT: Frame := Frame(true, {}, "", 0, true)
  const ARRAY: Frame := Frame(false, {}, "", 0, false)

  function StepOf(f: Frame): Step { if f.isObject then Field(f.key) else Element(f.index - 1) }

  /** Where the walk stands. */
  function Where(stack: seq<Frame>): seq<Step> { seq(|stack|, i requires 0 <= i < |stack| => StepOf(stack[i])) }

  function Top(stack: seq<Frame>): Frame
    requires |stack| > 0
  {
    stack[|stack| - 1]
  }

  function WithTop(stack: seq<Frame>, f: Frame): seq<Frame>
    requires |stack| > 0
  {
    stack[..|stack| - 1] + [f]
  }

  /** A container is opened as the next value: an array counts it. */
  function Opened(stack: seq<Frame>): seq<Frame> {
    if |stack| > 0 && !Top(stack).isObject then WithTop(stack, Top(stack).(index := Top(stack).index + 1)) else stack
  }

  /** A container has been closed: an object expects a key again. */
  function Closed(stack: seq<Frame>): seq<Frame> {
    if |stack| > 0 && Top(stack).isObject then WithTop(stack, Top(stack).(wantsKey := true)) else stack
  }

  /** A scalar has been read as a value. */
  function Valued(stack: seq<Frame>): seq<Frame>
    requires |stack| > 0
  {
    if Top(stack).isObject then WithTop(stack, Top(stack).(wantsKey := true))
    else WithTop(stack, Top(stack).(index := Top(stack).index + 1))
  }

  function KeyOf(t: Token): string { if t.Text? then t.s else "" }

  datatype Move = Stop(r: Result) | Go(stack: seq<Frame>)

  /** One token on an open stack. */
  function Next(stack: seq<Frame>, t: Token): Move
    requires |stack| > 0
  {
    match t
    case LBrace => Go(Opened(stack) + [OBJECT])
    case LBracket => Go(Opened(stack) + [ARRAY])
    case RBrace => Go(Closed(stack[..|stack| - 1]))
    case RBracket => Go(Closed(stack[..|stack| - 1]))
    case _ =>
      if Top(stack).isObject && Top(stack).wantsKey then
        var named := Top(stack).(key := KeyOf(t));
        if KeyOf(t) in Top(stack).keys then Stop(Duplicate(KeyOf(t), Render(Where(WithTop(stack, named)))))
        else Go(WithTop(stack, named.(keys := named.keys + {KeyOf(t)}, wantsKey := false)))
      else Go(Valued(stack))
  }

  /** The walk from a given stack, after the first token. */
  function Machine(stack: seq<Frame>, ts: seq<Token>, end: End): Result
    decreases |ts|
  {
    if ts == [] then (if end.Eof? then Accepted else Syntax)
    else if stack == [] then Trailing
    else
      match Next(stack, ts[0])
      case Stop(r) => r
      case Go(stack') => Machine(stack', ts[1..], end)
  }

  function Walked(ts: seq<Token>, end: End): Result {
    if ts == [] then (if end.Eof? then Empty else Syntax)
    else if ts[0] != LBrace then NotObject
    else Machine([OBJECT], ts[1..], end)
  }

  lemma NothingRendered()
    ensures Render(Where([])) == ""
  {}

  /** What one more frame adds to the rendered path. */
  lemma OneMoreFrame(stack: seq<Frame>, i: nat)
    requires i < |stack|
    ensures var (before, f) := (Render(Where(stack[..i])), stack[i]);
      Render(Where(stack[..i + 1])) ==
        if f.isObject then (if |before| > 0 then before + "." else before) + f.key
        else before + "[" + Decimal(f.index - 1) + "]"
  {
    hide Decimal;
    assert Where(stack[..i + 1])[..i] == Where(stack[..i]);
  }

  /** The source's closure: the path string of the stack, built front to back. */
  method PathString(stack: seq<Frame>) returns (path: string)
    ensures path == Render(Where(stack))
  {
    hide Render, Where, Decimal;
    path := "";
    NothingRendered();
    for i := 0 to |stack|
      invariant path == Render(Where(stack[..i]))
    {
      OneMoreFrame(stack, i);
      if stack[i].isObject {
        if |path| > 0 { path := path + "."; }
        path := path + stack[i].key;
      } else {
        path := path + "[" + Decimal(stack[i].index - 1) + "]";
      }
    }
    assert stack[..|stack|] == stack;
  }

  lemma SetTop(stack: seq<Frame>, f: Frame)
    requires |stack| > 0
    ensures stack[|stack| - 1 := f] == WithTop(stack, f)
  {}

  /** The part of the loop that edits the stack. */
  method Edit(stack0: seq<Frame>, tok: Token) returns (m: Move)
    requires |stack0| > 0
    ensures m == Next(stack0, tok)
  {
    hide WithTop, Where, Render;
    var stack := stack0;
    if tok == LBrace || tok == LBracket {
      var n := |stack|;
      if !stack[n - 1].isObject {
        SetTop(stack, stack[n - 1].(index := stack[n - 1].index + 1));
        stack := stack[n - 1 := stack[n - 1].(index := stack[n - 1].index + 1)];
      }
      return Go(stack + [if tok == LBrace then OBJECT else ARRAY]);
    }
    if tok == RBrace || tok == RBracket {
      stack := stack[..|stack| - 1];
      var n := |stack|;
      if n > 0 && stack[n - 1].isObject {
        SetTop(stack, stack[n - 1].(wantsKey := true));
        stack := stack[n - 1 := stack[n - 1].(wantsKey := true)];
      }
      return Go(stack);
    }
    var n := |stack|;
    var top := stack[n - 1];
    if top.isObject {
      if top.wantsKey {
        var k := KeyOf(tok);
        SetTop(stack, top.(key := k));
        SetTop(stack, top.(key := k, keys := top.keys + {k}, wantsKey := false));
        if k in top.keys {
          var path := PathString(stack[n - 1 := top.(key := k)]);
          return Stop(Duplicate(k, path));
        }
        return Go(stack[n - 1 := top.(key := k, keys := top.keys + {k}, wantsKey := false)]);
      }
      SetTop(stack, top.(wantsKey := true));
      return Go(stack[n - 1 := top.(wantsKey := true)]);
    } else {
      SetTop(stack, top.(index := top.index + 1));
      return Go(stack[n - 1 := top.(index := top.index + 1)]);
    }
  }

  method Walk(ts: seq<Token>, end: End) returns (r: Result)
    ensures r == Walked(ts, end)
  {
    hide Next;
    var stack: seq<Frame> := [];
    var first := true;
    var i := 0;
    while true
      invariant i <= |ts| && (first <==> i == 0)
      invariant first ==> stack == []
      invariant !first ==> Machine(stack, ts[i..], end) == Walked(ts, end)
      decreases |ts| - i
    {
      if i == |ts| {
        if end.Malformed? { return Syntax; }
        if first { return Empty; }
        return Accepted;
      }
      var tok := ts[i];
      assert ts[i..][1..] == ts[i + 1..];
      i := i + 1;
      if first {
        first := false;
        if tok != LBrace { return NotObject; }
        stack := [OBJECT];
        continue;
      }
      if |stack| == 0 {
        return Trailing;
      }
      var m := Edit(stack, tok);
      if m.Stop? { return m.r; }
      stack := m.stack;
    }
  }

  // The automaton against the recursive definition.

  predicate TakesValue(stack: seq<Frame>) { |stack| > 0 && !(Top(stack).isObject && Top(stack).wantsKey) }

  function Outcome(at: seq<Step>, found: Option<seq<Step>>, stack: seq<Frame>, rest: seq<Token>, end: End): Result {
    if found.Some? then Report(at + found.value) else Machine(stack, rest, end)
  }

  function ObjectFrame(seen: set<string>, key: string, wantsKey: bool): Frame { Frame(true, seen, key, 0, wantsKey) }

  lemma MachineStep(stack: seq<Frame>, t: Token, rest: seq<Token>, end: End)
    requires |stack| > 0
    ensures Machine(stack, [t] + rest, end) ==
            if Next(stack, t).Stop? then Next(stack, t).r else Machine(Next(stack, t).stack, rest, end)
  {
    assert ([t] + rest)[1..] == rest;
  }

  lemma Pushed(base: seq<Frame>, f: Frame, g: Frame)
    ensures |base + [f]| > 0 && Top(base + [f]) == f && WithTop(base + [f], g) == base + [g]
    ensures (base + [f])[..|base + [f]| - 1] == base
    ensures Where(base + [f]) == Where(base) + [StepOf(f)]
  {}

  /** Reading a whole value leaves the automaton where a scalar would, unless the value repeats a key. */
  lemma {:induction false} RunValue(v: Json, stack: seq<Frame>, rest: seq<Token>, end: End)
    requires TakesValue(stack)
    ensures Machine(stack, Flatten(v) + rest, end) ==
            Outcome(Where(Opened(stack)), FirstDuplicate(v), Valued(stack), rest, end)
    decreases v, 0
  {
    hide Where, Report, Machine;
    var base := Opened(stack);
    Pushed(stack[..|stack| - 1], Top(stack), Top(stack));
    assert stack == stack[..|stack| - 1] + [Top(stack)];
    match v
    case Obj(ms) =>
      var inside := FlattenMembers(ms) + [RBrace] + rest;
      assert Flatten(v) + rest == [LBrace] + inside;
      MachineStep(stack, LBrace, inside, end);
      RunMembers(ms, {}, "", base, rest, end);
      assert Closed(base) == Valued(stack);
    case Arr(items) =>
      var inside := FlattenItems(items) + [RBracket] + rest;
      assert Flatten(v) + rest == [LBracket] + inside;
      MachineStep(stack, LBracket, inside, end);
      RunItems(items, 0, base, rest, end);
      assert Closed(base) == Valued(stack);
    case Str(s) =>
      MachineStep(stack, Text(s), rest, end);
    case Other =>
      MachineStep(stack, Scalar, rest, end);
  }

  lemma {:induction false} RunMembers(ms: Members, seen: set<string>, key: string, base: seq<Frame>, rest: seq<Token>,
    end: End)
    ensures Machine(base + [ObjectFrame(seen, key, true)], FlattenMembers(ms) + [RBrace] + rest, end) ==
            Outcome(Where(base), DuplicateMember(ms, seen), Closed(base), rest, end)
    decreases ms
  {
    hide Where, Report, Machine, Render;
    var stack := base + [ObjectFrame(seen, key, true)];
    match ms
    case NoMembers =>
      assert FlattenMembers(ms) + [RBrace] + rest == [RBrace] + rest;
      Pushed(base, ObjectFrame(seen, key, true), ObjectFrame(seen, key, true));
      MachineStep(stack, RBrace, rest, end);
    case Member(k, v, others) =>
      var after := FlattenMembers(others) + [RBrace] + rest;
      assert FlattenMembers(ms) + [RBrace] + rest == [Text(k)] + (Flatten(v) + after);
      Pushed(base, ObjectFrame(seen, key, true), ObjectFrame(seen, k, true));
      Pushed(base, ObjectFrame(seen, key, true), ObjectFrame(seen + {k}, k, false));
      MachineStep(stack, Text(k), Flatten(v) + after, end);
      Pushed(base, ObjectFrame(seen, k, true), ObjectFrame(seen, k, true));
      if k in seen {
        ReportsKey(Where(base), k);
      } else {
        RunValueOf(k, v, seen + {k}, base, after, end);
        RunMembers(others, seen + {k}, k, base, rest, end);
      }
  }

  lemma {:induction false} RunValueOf(k: string, v: Json, seen: set<string>, base: seq<Frame>, after: seq<Token>,
    end: End)
    ensures Machine(base + [ObjectFrame(seen, k, false)], Flatten(v) + after, end) ==
            Outcome(Where(base), Under(Field(k), FirstDuplicate(v)), base + [ObjectFrame(seen, k, true)], after, end)
    decreases v, 1
  {
    hide Where, Report, Machine;
    var f := ObjectFrame(seen, k, false);
    Pushed(base, f, ObjectFrame(seen, k, true));
    RunValue(v, base + [f], after, end);
    if FirstDuplicate(v).Some? {
      var p := FirstDuplicate(v).value;
      assert Where(base) + [Field(k)] + p == Where(base) + ([Field(k)] + p);
    }
  }

  lemma {:induction false} RunItems(items: Items, index: nat, base: seq<Frame>, rest: seq<Token>, end: End)
    ensures Machine(base + [Frame(false, {}, "", index, false)], FlattenItems(items) + [RBracket] + rest, end) ==
            Outcome(Where(base), DuplicateItem(items, index), Closed(base), rest, end)
    decreases items
  {
    hide Where, Report, Machine;
    var f := Frame(false, {}, "", index, false);
    match items
    case NoItems =>
      assert FlattenItems(items) + [RBracket] + rest == [RBracket] + rest;
      Pushed(base, f, f);
      MachineStep(base + [f], RBracket, rest, end);
    case Item(v, others) =>
      var after := FlattenItems(others) + [RBracket] + rest;
      assert FlattenItems(items) + [RBracket] + rest == Flatten(v) + after;
      var counted := f.(index := index + 1);
      Pushed(base, f, counted);
      Pushed(base, counted, counted);
      RunValue(v, base + [f], after, end);
      RunItems(others, index + 1, base, rest, end);
      if FirstDuplicate(v).Some? {
        var p := FirstDuplicate(v).value;
        assert Where(base) + [Element(index)] + p == Where(base) + ([Element(index)] + p);
      }
  }

  lemma ReportsKey(at: seq<Step>, k: string)
    ensures Report(at + [Field(k)]) == Duplicate(k, Render(at + [Field(k)]))
  {}

  // No key repeated in any object at any depth, and a path to one that is.

  function KeysOf(ms: Members): seq<string> {
    match ms
    case NoMembers => []
    case Member(k, _, rest) => [k] + KeysOf(rest)
  }

  ghost predicate Unrepeated(v: Json) {
    match v
    case Obj(ms) => Distinct(KeysOf(ms)) && UnrepeatedMembers(ms)
    case Arr(items) => UnrepeatedItems(items)
    case _ => true
  }

  ghost predicate UnrepeatedMembers(ms: Members) {
    match ms
    case NoMembers => true
    case Member(_, v, rest) => Unrepeated(v) && UnrepeatedMembers(rest)
  }

  ghost predicate UnrepeatedItems(items: Items) {
    match items
    case NoItems => true
    case Item(v, rest) => Unrepeated(v) && UnrepeatedItems(rest)
  }

  predicate Apart(keys: seq<string>, seen: set<string>) { forall i :: 0 <= i < |keys| ==> keys[i] !in seen }

  lemma DistinctCons(k: string, keys: seq<string>, seen: set<string>)
    ensures Distinct([k] + keys) && Apart([k] + keys, seen) <==>
            k !in seen && Distinct(keys) && Apart(keys, seen + {k})
  {
    var all := [k] + keys;
    assert forall i :: 0 <= i < |keys| ==> keys[i] == all[1 + i];
    if Distinct(keys) && Apart(keys, seen + {k}) && k !in seen {
      forall i, j | 0 <= i < j < |all|
        ensures all[i] != all[j]
      {
        assert all[j] == keys[j - 1];
        if i > 0 { assert all[i] == keys[i - 1]; }
      }
    }
    if Distinct(all) && Apart(all, seen) {
      assert all[0] == k;
      forall i, j | 0 <= i < j < |keys|
        ensures keys[i] != keys[j]
      {
        assert all[1 + i] != all[1 + j];
      }
      forall i | 0 <= i < |keys|
        ensures keys[i] !in seen + {k}
      {
        assert all[1 + i] != all[0];
      }
    }
  }

  lemma {:induction false} NoneIffUnrepeated(v: Json)
    ensures FirstDuplicate(v).None? <==> Unrepeated(v)
    decreases v
  {
    match v
    case Obj(ms) => NoneIffMembers(ms, {});
    case Arr(items) => NoneIffItems(items, 0);
    case _ =>
  }

  lemma {:induction false} NoneIffMembers(ms: Members, seen: set<string>)
    ensures DuplicateMember(ms, seen).None? <==>
            Distinct(KeysOf(ms)) && Apart(KeysOf(ms), seen) && UnrepeatedMembers(ms)
    decreases ms
  {
    if ms.Member? {
      DistinctCons(ms.key, KeysOf(ms.rest), seen);
      NoneIffUnrepeated(ms.value);
      NoneIffMembers(ms.rest, seen + {ms.key});
    }
  }

  lemma {:induction false} NoneIffItems(items: Items, index: nat)
    ensures DuplicateItem(items, index).None? <==> UnrepeatedItems(items)
    decreases items
  {
    if items.Item? {
      NoneIffUnrepeated(items.head);
      NoneIffItems(items.tail, index + 1);
    }
  }

  /** The path leads to an object of the tree that holds its last key more than once. */
  predicate Repeats(v: Json, path: seq<Step>)
    decreases v
  {
    |path| > 0 &&
    match v
    case Obj(ms) => RepeatsMember(ms, path) || (|path| == 1 && path[0].Field? && |Only(KeysOf(ms), path[0].key)| >= 2)
    case Arr(items) => path[0].Element? && RepeatsItem(items, path[0].index, path)
    case _ => false
  }

  predicate RepeatsMember(ms: Members, path: seq<Step>)
    requires |path| > 0
    decreases ms
  {
    ms.Member? && ((path[0] == Field(ms.key) && Repeats(ms.value, path[1..])) || RepeatsMember(ms.rest, path))
  }

  predicate RepeatsItem(items: Items, index: int, path: seq<Step>)
    requires |path| > 0
    decreases items
  {
    items.Item? && (if index == 0 then Repeats(items.head, path[1..]) else RepeatsItem(items.tail, index - 1, path))
  }

  /** The occurrences of one key. */
  function Only(keys: seq<string>, k: string): seq<string> {
    if keys == [] then [] else (if keys[0] == k then [k] else []) + Only(keys[1..], k)
  }

  lemma {:induction false} DuplicateIsReal(v: Json)
    requires FirstDuplicate(v).Some?
    ensures Repeats(v, FirstDuplicate(v).value)
    ensures LastStep(FirstDuplicate(v).value).Field?
    decreases v
  {
    match v
    case Obj(ms) => DuplicateMemberIsReal(ms, {});
    case Arr(items) => DuplicateItemIsReal(items, 0);
  }

  function LastStep(path: seq<Step>): Step
  {
    if path == [] then Element(0) else path[|path| - 1]
  }

  lemma UnderReal(step: Step, path: seq<Step>)
    requires |path| > 0
    ensures ([step] + path)[0] == step && ([step] + path)[1..] == path && LastStep([step] + path) == LastStep(path)
  {}

  /** A key found again is held by an object once before and once more, or the repeat is deeper. */
  lemma {:induction false} DuplicateMemberIsReal(ms: Members, seen: set<string>)
    requires DuplicateMember(ms, seen).Some?
    ensures var path := DuplicateMember(ms, seen).value;
      && |path| > 0 && LastStep(path).Field?
      && (RepeatsMember(ms, path) ||
          (|path| == 1 && |Only(KeysOf(ms), path[0].key)| >= (if path[0].key in seen then 1 else 2)))
    ensures seen == {} ==> Repeats(Obj(ms), DuplicateMember(ms, seen).value)
    decreases ms
  {
    var path := DuplicateMember(ms, seen).value;
    var k, v, rest := ms.key, ms.value, ms.rest;
    assert ([k] + KeysOf(rest))[1..] == KeysOf(rest);
    if k in seen {
      assert path == [Field(k)];
    } else if FirstDuplicate(v).Some? {
      DuplicateIsReal(v);
      UnderReal(Field(k), FirstDuplicate(v).value);
    } else {
      DuplicateMemberIsReal(rest, seen + {k});
    }
  }

  lemma {:induction false} DuplicateItemIsReal(items: Items, index: nat)
    requires DuplicateItem(items, index).Some?
    ensures var path := DuplicateItem(items, index).value;
      && |path| > 0 && LastStep(path).Field? && path[0].Element? && path[0].index >= index
      && RepeatsItem(items, path[0].index - index, path)
    decreases items
  {
    if FirstDuplicate(items.head).Some? {
      DuplicateIsReal(items.head);
      UnderReal(Element(index), FirstDuplicate(items.head).value);
    } else {
      DuplicateItemIsReal(items.tail, index + 1);
    }
  }

  // What the walk answers.

  /** On the tokens of whole values the automaton answers what the recursive definition does. */
  lemma {:induction false} WalkExact(vs: seq<Json>)
    ensures Walked(FlattenAll(vs), Eof) == Expected(vs)
  {
    if vs != [] {
      var after := FlattenAll(vs[1..]);
      assert FlattenAll(vs) == Flatten(vs[0]) + after;
      if vs[0].Obj? {
        var inside := FlattenMembers(vs[0].members) + [RBrace] + after;
        assert Flatten(vs[0]) + after == [LBrace] + inside;
        assert ([LBrace] + inside)[1..] == inside;
        assert [] + [OBJECT] == [OBJECT];
        RunMembers(vs[0].members, {}, "", [], after, Eof);
        if FirstDuplicate(vs[0]).Some? {
          assert Where([]) + FirstDuplicate(vs[0]).value == FirstDuplicate(vs[0]).value;
        }
      } else {
        assert FlattenAll(vs)[0] == Flatten(vs[0])[0];
      }
    }
  }

  /** Accepted exactly when the body is one object and no object in it, at any depth, repeats a key. */
  lemma AcceptedIff(vs: seq<Json>)
    ensures Walked(FlattenAll(vs), Eof) == Accepted <==> |vs| == 1 && vs[0].Obj? && Unrepeated(vs[0])
  {
    WalkExact(vs);
    if vs != [] { NoneIffUnrepeated(vs[0]); }
  }

  /** A reported duplicate is the last key of a path that leads to an object holding that key twice. */
  lemma ReportedPath(vs: seq<Json>)
    requires Walked(FlattenAll(vs), Eof).Duplicate?
    ensures |vs| > 0 && exists path ::
      && Repeats(vs[0], path) && LastStep(path).Field?
      && Walked(FlattenAll(vs), Eof) == Duplicate(LastStep(path).key, Render(path))
  {
    WalkExact(vs);
    DuplicateIsReal(vs[0]);
    assert Repeats(vs[0], FirstDuplicate(vs[0]).value);
  }

  /** A syntax error is never accepted, wherever it comes. */
  lemma {:induction false} MalformedNeverAccepted(stack: seq<Frame>, ts: seq<Token>)
    ensures Machine(stack, ts, Malformed) != Accepted && Walked(ts, Malformed) != Accepted
    decreases |ts|
  {
    if ts != [] {
      if |stack| > 0 && Next(stack, ts[0]).Go? {
        MalformedNeverAccepted(Next(stack, ts[0]).stack, ts[1..]);
      }
      MalformedNeverAccepted([OBJECT], ts[1..]);
    }
  }

  /** The walk does not ask whether the object was closed: input that ends inside an acceptable object passes it. */
  lemma {:induction false} CutShortPasses(stack: seq<Frame>, ts: seq<Token>, more: seq<Token>)
    requires Machine(stack, ts + more, Eof) == Accepted
    ensures Machine(stack, ts, Eof) == Accepted
    decreases |ts|
  {
    if ts != [] {
      assert (ts + more)[0] == ts[0] && (ts + more)[1..] == ts[1..] + more;
      CutShortPasses(Next(stack, ts[0]).stack, ts[1..], more);
    }
  }

  predicate Begins(start: seq<Token>, whole: seq<Token>) { start <= whole }

  /** Input that has a beginning in common with another either is a part of it or goes on from it. */
  lemma CutSplits(start: seq<Token>, whole: seq<Token>, ts: seq<Token>, more: seq<Token>)
    requires Begins(start, whole) && ts + more == whole
    ensures |ts| <= |start| ==> ts + start[|ts|..] == start
    ensures |ts| > |start| ==> ts == start + ts[|start|..] && ts[|start|] == whole[|start|]
  {
    assert ts == whole[..|ts|] && start == whole[..|start|];
  }

  lemma BeginsAt(start: seq<Token>, whole: seq<Token>, t: Token)
    requires Begins(start + [t], whole)
    ensures Begins(start, whole) && whole[|start|] == t
  {
    assert (start + [t])[|start|] == t;
    assert start + [t] == whole[..|start| + 1];
    assert start == (start + [t])[..|start|];
  }

  lemma WalkedObject(ts: seq<Token>, rest: seq<Token>)
    requires ts == [LBrace] + rest
    ensures Walked(ts, Eof) == Machine([OBJECT], rest, Eof)
  {
    assert ts[1..] == rest;
  }

  /** A nonempty beginning of input that passes, passes. */
  lemma BeginningPasses(ts: seq<Token>, more: seq<Token>)
    requires ts != [] && Walked(ts + more, Eof) == Accepted
    ensures Walked(ts, Eof) == Accepted
  {
    assert (ts + more)[0] == ts[0] && (ts + more)[1..] == ts[1..] + more;
    CutShortPasses([OBJECT], ts[1..], more);
  }

  /** The walk over an object's own tokens and what follows them. */
  lemma ObjectRuns(v: Json, rest: seq<Token>, end: End)
    requires v.Obj?
    ensures Walked(Flatten(v) + rest, end) == Outcome([], FirstDuplicate(v), [], rest, end)
  {
    var inside := FlattenMembers(v.members) + [RBrace] + rest;
    assert Flatten(v) + rest == [LBrace] + inside;
    assert ([LBrace] + inside)[1..] == inside;
    assert [] + [OBJECT] == [OBJECT];
    RunMembers(v.members, {}, "", [], rest, end);
  }

  /** An acceptable object followed by anything, cut off anywhere: exactly the nonempty beginnings of the object
      pass. */
  lemma CutShort(v: Json, others: seq<Json>, ts: seq<Token>, more: seq<Token>)
    requires v.Obj? && Unrepeated(v) && ts + more == Flatten(v) + FlattenAll(others)
    ensures Walked(ts, Eof) == Accepted <==> 0 < |ts| <= |Flatten(v)|
    ensures |ts| > |Flatten(v)| ==> Walked(ts, Eof) == Trailing
  {
    hide Flatten, Unrepeated, Walked;
    NoneIffUnrepeated(v);
    CutSplits(Flatten(v), ts + more, ts, more);
    if ts == [] {
      NothingWalked(ts);
    } else if |ts| <= |Flatten(v)| {
      ObjectRuns(v, [], Eof);
      assert Flatten(v) + [] == Flatten(v);
      BeginningPasses(ts, Flatten(v)[|ts|..]);
    } else {
      ObjectRuns(v, ts[|Flatten(v)|..], Eof);
    }
  }

  lemma NothingWalked(ts: seq<Token>)
    requires ts == []
    ensures Walked(ts, Eof) == Empty
  {}

  /** The tokens of a value before its first repeated key. */
  function Before(v: Json): seq<Token>
    requires FirstDuplicate(v).Some?
  {
    match v
    case Obj(ms) => [LBrace] + BeforeMember(ms, {})
    case Arr(items) => [LBracket] + BeforeItem(items, 0)
  }

  function BeforeMember(ms: Members, seen: set<string>): seq<Token>
    requires DuplicateMember(ms, seen).Some?
  {
    if ms.key in seen then []
    else if FirstDuplicate(ms.value).Some? then [Text(ms.key)] + Before(ms.value)
    else [Text(ms.key)] + Flatten(ms.value) + BeforeMember(ms.rest, seen + {ms.key})
  }

  function BeforeItem(items: Items, index: nat): seq<Token>
    requires DuplicateItem(items, index).Some?
  {
    if FirstDuplicate(items.head).Some? then Before(items.head)
    else Flatten(items.head) + BeforeItem(items.tail, index + 1)
  }

  /** The token of the repeated key. */
  function Again(path: seq<Step>): seq<Token> { [Text(LastKey(path))] }

  lemma BeginsFront(start: seq<Token>, whole: seq<Token>, b: seq<Token>)
    requires Begins(start, whole)
    ensures Begins(start, whole + b)
  {
    assert whole == start + whole[|start|..];
    assert whole + b == start + (whole[|start|..] + b);
  }

  lemma BeginsBack(a: seq<Token>, start: seq<Token>, whole: seq<Token>)
    requires Begins(start, whole)
    ensures Begins(a + start, a + whole)
  {
    assert whole == start + whole[|start|..];
    assert a + whole == (a + start) + whole[|start|..];
  }

  lemma LastKeyUnder(step: Step, path: seq<Step>)
    requires |path| > 0
    ensures LastKey([step] + path) == LastKey(path)
  {}

  lemma {:induction false} BeforeBegins(v: Json)
    requires FirstDuplicate(v).Some?
    ensures Begins(Before(v) + Again(FirstDuplicate(v).value), Flatten(v))
    decreases v
  {
    hide Begins, Again;
    var again := Again(FirstDuplicate(v).value);
    match v
    case Obj(ms) =>
      BeforeBeginsMember(ms, {});
      BeginsBack([LBrace], BeforeMember(ms, {}) + again, FlattenMembers(ms));
      BeginsFront([LBrace] + (BeforeMember(ms, {}) + again), [LBrace] + FlattenMembers(ms), [RBrace]);
      assert Before(v) + again == [LBrace] + (BeforeMember(ms, {}) + again);
    case Arr(items) =>
      BeforeBeginsItem(items, 0);
      BeginsBack([LBracket], BeforeItem(items, 0) + again, FlattenItems(items));
      BeginsFront([LBracket] + (BeforeItem(items, 0) + again), [LBracket] + FlattenItems(items), [RBracket]);
      assert Before(v) + again == [LBracket] + (BeforeItem(items, 0) + again);
  }

  lemma {:induction false} BeforeBeginsMember(ms: Members, seen: set<string>)
    requires DuplicateMember(ms, seen).Some?
    ensures Begins(BeforeMember(ms, seen) + Again(DuplicateMember(ms, seen).value), FlattenMembers(ms))
    decreases ms
  {
    hide Begins, Again, Flatten;
    var again, k, v := Again(DuplicateMember(ms, seen).value), ms.key, ms.value;
    var whole := [Text(k)] + Flatten(v) + FlattenMembers(ms.rest);
    if k in seen {
      AgainIs(k);
      BeginsWith([Text(k)], Flatten(v) + FlattenMembers(ms.rest));
      assert whole == [Text(k)] + (Flatten(v) + FlattenMembers(ms.rest)) && [] + [Text(k)] == [Text(k)];
    } else if FirstDuplicate(v).Some? {
      BeforeBegins(v);
      DuplicateIsReal(v);
      AgainUnder(Field(k), FirstDuplicate(v).value);
      BeginsBack([Text(k)], Before(v) + again, Flatten(v));
      BeginsFront([Text(k)] + (Before(v) + again), [Text(k)] + Flatten(v), FlattenMembers(ms.rest));
      assert BeforeMember(ms, seen) + again == [Text(k)] + (Before(v) + again);
    } else {
      BeforeBeginsMember(ms.rest, seen + {k});
      BeginsBack([Text(k)] + Flatten(v), BeforeMember(ms.rest, seen + {k}) + again, FlattenMembers(ms.rest));
      assert BeforeMember(ms, seen) + again == [Text(k)] + Flatten(v) + (BeforeMember(ms.rest, seen + {k}) + again);
    }
  }

  lemma {:induction false} BeforeBeginsItem(items: Items, index: nat)
    requires DuplicateItem(items, index).Some?
    ensures Begins(BeforeItem(items, index) + Again(DuplicateItem(items, index).value), FlattenItems(items))
    decreases items
  {
    hide Begins, Again, Flatten;
    var again, v := Again(DuplicateItem(items, index).value), items.head;
    if FirstDuplicate(v).Some? {
      BeforeBegins(v);
      DuplicateIsReal(v);
      AgainUnder(Element(index), FirstDuplicate(v).value);
      BeginsFront(Before(v) + again, Flatten(v), FlattenItems(items.tail));
    } else {
      BeforeBeginsItem(items.tail, index + 1);
      BeginsBack(Flatten(v), BeforeItem(items.tail, index + 1) + again, FlattenItems(items.tail));
      assert BeforeItem(items, index) + again == Flatten(v) + (BeforeItem(items.tail, index + 1) + again);
    }
  }

  lemma BeginsWith(start: seq<Token>, more: seq<Token>)
    ensures Begins(start, start + more)
  {}

  lemma AgainIs(k: string)
    ensures Again([Field(k)]) == [Text(k)]
  {}

  lemma AgainUnder(step: Step, path: seq<Step>)
    requires |path| > 0
    ensures Again([step] + path) == Again(path)
  {
    LastKeyUnder(step, path);
  }

  /** What the automaton answers when a repeated key was, or was not, reached. */
  function Reached(at: seq<Step>, path: seq<Step>, tail: seq<Token>): Result {
    if tail == [] then Accepted else Report(at + path)
  }

  /** The rest of the input at a repeated key: nothing, or that key and anything after it. */
  predicate Tail(tail: seq<Token>, path: seq<Step>) { tail == [] || tail[0] == Text(LastKey(path)) }

  lemma {:induction false} CutValue(v: Json, stack: seq<Frame>, tail: seq<Token>)
    requires TakesValue(stack) && FirstDuplicate(v).Some? && Tail(tail, FirstDuplicate(v).value)
    ensures Machine(stack, Before(v) + tail, Eof) == Reached(Where(Opened(stack)), FirstDuplicate(v).value, tail)
    decreases v, 0
  {
    hide Where, Report, Machine, Tail;
    match v
    case Obj(ms) =>
      assert Before(v) + tail == [LBrace] + (BeforeMember(ms, {}) + tail);
      MachineStep(stack, LBrace, BeforeMember(ms, {}) + tail, Eof);
      CutMember(ms, {}, "", Opened(stack), tail);
    case Arr(items) =>
      assert Before(v) + tail == [LBracket] + (BeforeItem(items, 0) + tail);
      MachineStep(stack, LBracket, BeforeItem(items, 0) + tail, Eof);
      CutItem(items, 0, Opened(stack), tail);
  }

  lemma {:induction false} CutMember(ms: Members, seen: set<string>, key: string, base: seq<Frame>, tail: seq<Token>)
    requires DuplicateMember(ms, seen).Some? && Tail(tail, DuplicateMember(ms, seen).value)
    ensures Machine(base + [ObjectFrame(seen, key, true)], BeforeMember(ms, seen) + tail, Eof) ==
            Reached(Where(base), DuplicateMember(ms, seen).value, tail)
    decreases ms
  {
    hide Where, Report, Machine, Render, Tail;
    var stack, k, v := base + [ObjectFrame(seen, key, true)], ms.key, ms.value;
    Pushed(base, ObjectFrame(seen, key, true), ObjectFrame(seen, k, true));
    Pushed(base, ObjectFrame(seen, key, true), ObjectFrame(seen + {k}, k, false));
    Pushed(base, ObjectFrame(seen, k, true), ObjectFrame(seen, k, true));
    if k in seen {
      CutHere(base, seen, key, k, tail);
    } else if FirstDuplicate(v).Some? {
      assert BeforeMember(ms, seen) + tail == [Text(k)] + (Before(v) + tail);
      MachineStep(stack, Text(k), Before(v) + tail, Eof);
      CutValueOf(k, v, seen + {k}, base, tail);
    } else {
      var after := BeforeMember(ms.rest, seen + {k}) + tail;
      assert BeforeMember(ms, seen) + tail == [Text(k)] + (Flatten(v) + after);
      MachineStep(stack, Text(k), Flatten(v) + after, Eof);
      RunValueOf(k, v, seen + {k}, base, after, Eof);
      CutMember(ms.rest, seen + {k}, k, base, tail);
    }
  }

  lemma CutHere(base: seq<Frame>, seen: set<string>, key: string, k: string, tail: seq<Token>)
    requires k in seen && Tail(tail, [Field(k)])
    ensures Machine(base + [ObjectFrame(seen, key, true)], [] + tail, Eof) == Reached(Where(base), [Field(k)], tail)
  {
    hide Where, Render;
    assert [] + tail == tail;
    if tail != [] {
      Pushed(base, ObjectFrame(seen, key, true), ObjectFrame(seen, k, true));
      Pushed(base, ObjectFrame(seen, k, true), ObjectFrame(seen, k, true));
      assert tail == [Text(k)] + tail[1..];
      MachineStep(base + [ObjectFrame(seen, key, true)], Text(k), tail[1..], Eof);
      ReportsKey(Where(base), k);
    }
  }

  lemma TailUnder(step: Step, path: seq<Step>, tail: seq<Token>)
    requires |path| > 0
    ensures Tail(tail, [step] + path) <==> Tail(tail, path)
  {
    LastKeyUnder(step, path);
  }

  lemma {:induction false} CutValueOf(k: string, v: Json, seen: set<string>, base: seq<Frame>, tail: seq<Token>)
    requires FirstDuplicate(v).Some? && Tail(tail, [Field(k)] + FirstDuplicate(v).value)
    ensures Machine(base + [ObjectFrame(seen, k, false)], Before(v) + tail, Eof) ==
            Reached(Where(base), [Field(k)] + FirstDuplicate(v).value, tail)
    decreases v, 1
  {
    hide Where, Report, Machine, Tail;
    var f, p := ObjectFrame(seen, k, false), FirstDuplicate(v).value;
    DuplicateIsReal(v);
    TailUnder(Field(k), p, tail);
    Pushed(base, f, f);
    CutValue(v, base + [f], tail);
    assert Where(base) + [Field(k)] + p == Where(base) + ([Field(k)] + p);
  }

  lemma {:induction false} CutItem(items: Items, index: nat, base: seq<Frame>, tail: seq<Token>)
    requires DuplicateItem(items, index).Some? && Tail(tail, DuplicateItem(items, index).value)
    ensures Machine(base + [Frame(false, {}, "", index, false)], BeforeItem(items, index) + tail, Eof) ==
            Reached(Where(base), DuplicateItem(items, index).value, tail)
    decreases items
  {
    hide Where, Report, Machine, Tail;
    var f, v := Frame(false, {}, "", index, false), items.head;
    var counted := f.(index := index + 1);
    Pushed(base, f, counted);
    Pushed(base, counted, counted);
    if FirstDuplicate(v).Some? {
      var p := FirstDuplicate(v).value;
      DuplicateIsReal(v);
      TailUnder(Element(index), p, tail);
      CutValue(v, base + [f], tail);
      assert Where(base) + [Element(index)] + p == Where(base) + ([Element(index)] + p);
    } else {
      var after := BeforeItem(items.tail, index + 1) + tail;
      assert BeforeItem(items, index) + tail == Flatten(v) + after;
      RunValue(v, base + [f], after, Eof);
      CutItem(items.tail, index + 1, base, tail);
    }
  }

  /** The walk over the tokens of an object before its first repeated key, and what follows them. */
  lemma CutRuns(v: Json, tail: seq<Token>)
    requires v.Obj? && FirstDuplicate(v).Some? && Tail(tail, FirstDuplicate(v).value)
    ensures Walked(Before(v) + tail, Eof) == if tail == [] then Accepted else Report(FirstDuplicate(v).value)
  {
    hide Tail, Walked, Machine, Report;
    var inside := BeforeMember(v.members, {}) + tail;
    assert Before(v) + tail == [LBrace] + inside;
    WalkedObject(Before(v) + tail, inside);
    assert [] + [OBJECT] == [OBJECT] && Where([]) + FirstDuplicate(v).value == FirstDuplicate(v).value;
    CutMember(v.members, {}, "", [], tail);
  }

  /** An object that repeats a key, followed by anything, cut off anywhere: exactly the nonempty beginnings that
      end before the repeated key pass, and every longer one is refused with the same report. */
  lemma CutAtRepeat(v: Json, others: seq<Json>, ts: seq<Token>, more: seq<Token>)
    requires v.Obj? && FirstDuplicate(v).Some? && ts + more == Flatten(v) + FlattenAll(others)
    ensures Walked(ts, Eof) == Accepted <==> 0 < |ts| <= |Before(v)|
    ensures |ts| > |Before(v)| ==> Walked(ts, Eof) == Report(FirstDuplicate(v).value)
  {
    hide Flatten, Before, Walked, Begins, FirstDuplicate, FlattenAll, Render;
    var path, whole := FirstDuplicate(v).value, ts + more;
    BeforeBegins(v);
    BeginsFront(Before(v) + Again(path), Flatten(v), FlattenAll(others));
    BeginsAt(Before(v), whole, Text(LastKey(path)));
    CutSplits(Before(v), whole, ts, more);
    if ts == [] {
      NothingWalked(ts);
    } else if |ts| <= |Before(v)| {
      CutRuns(v, []);
      assert Before(v) + [] == Before(v);
      BeginningPasses(ts, Before(v)[|ts|..]);
    } else {
      CutRuns(v, ts[|Before(v)|..]);
    }
  }
}
