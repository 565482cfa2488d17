/** The indentation-stack YAML reader of src/infrastructure/api/swagger.ts.

  The program builds objects that the stack and their parents both point to. It is proved
  against a reader over a store in which objects are numbered in the order they are created,
  and that reader is proved to undo every way of writing a tree out. */
module Yaml {
  import opened Outcomes
  import opened Strings
  import opened YamlText

  // ---- The reader over a store ----

  datatype Node = Leaf(value: Scalar) | Ref(id: nat)

  type Entries = seq<(string, Node)>

  datatype Frame = Frame(id: nat, indent: int)

  datatype State = State(store: seq<Entries>, stack: seq<Frame>)

  const EMPTY := State([[]], [Frame(0, -1)])

  /** Assignment to a property: in place when the object has it, at the end otherwise. */
  function Put<T>(es: seq<(string, T)>, key: string, node: T): seq<(string, T)> {
    if es == [] then [(key, node)]
    else if es[0].0 == key then [(key, node)] + es[1..]
    else [es[0]] + Put(es[1..], key, node)
  }

  /** Closes the objects that a line with this indentation is not inside of. */
  function PopTo(stack: seq<Frame>, indent: int): (left: seq<Frame>)
    ensures left <= stack && (stack != [] ==> left != [])
  {
    if |stack| > 1 && stack[|stack| - 1].indent >= indent then PopTo(stack[..|stack| - 1], indent) else stack
  }

  ghost predicate Valid(st: State) {
    && st.stack != [] && st.store != []
    && (forall i :: 0 <= i < |st.stack| ==> st.stack[i].id < |st.store|)
    && RefsPointForward(st.store)
  }

  ghost predicate RefsPointForward(store: seq<Entries>) {
    forall i, j :: 0 <= i < |store| && 0 <= j < |store[i]| && store[i][j].1.Ref? ==> i < store[i][j].1.id < |store|
  }

  lemma {:induction false} PutKeepsOthers(es: Entries, key: string, node: Node)
    ensures forall e :: e in Put(es, key, node) ==> e in es || e == (key, node)
    ensures (key, node) in Put(es, key, node)
    ensures (forall e :: e in es ==> e.0 != key) ==> Put(es, key, node) == es + [(key, node)]
    decreases |es|
  {
    if es != [] && es[0].0 != key {
      PutKeepsOthers(es[1..], key, node);
      assert es == [es[0]] + es[1..];
    }
  }

  /** Assigning to a property that is there replaces its value where it stands. */
  lemma {:induction false} PutReplaces(es: Entries, key: string, node: Node, i: nat)
    requires i < |es| && es[i].0 == key && forall j :: 0 <= j < i ==> es[j].0 != key
    ensures Put(es, key, node) == es[i := (key, node)]
    decreases |es|
  {
    if i > 0 {
      PutReplaces(es[1..], key, node, i - 1);
    }
  }

  /** The object that the entries at this indentation belong to. */
  ghost function Owner(st: State, indent: nat): (p: nat)
    requires Valid(st)
    ensures p < |st.store|
  {
    var stack := PopTo(st.stack, indent);
    stack[|stack| - 1].id
  }

  /** A line with a colon: no value opens an object, anything else is a scalar. */
  function Assign(st: State, indent: int, key: string, value: string, accepts: string -> bool): State
    requires st.stack != []
    requires forall i :: 0 <= i < |st.stack| ==> st.stack[i].id < |st.store|
  {
    var stack := PopTo(st.stack, indent);
    var parent := stack[|stack| - 1].id;
    if value == [] then
      State(st.store[parent := Put(st.store[parent], key, Ref(|st.store|))] + [[]],
            stack + [Frame(|st.store|, indent)])
    else
      State(st.store[parent := Put(st.store[parent], key, Leaf(ParseValue(value, accepts)))], stack)
  }

  /** One line. */
  function Step(st: State, line: string, accepts: string -> bool): State
    requires st.stack != []
    requires forall i :: 0 <= i < |st.stack| ==> st.stack[i].id < |st.store|
  {
    if IsSkipped(line) then st
    else
      var trimmed := Trim(line);
      match IndexOf(trimmed, ':')
      case None => State(st.store, PopTo(st.stack, Indent(line)))
      case Some(colon) =>
        Assign(st, Indent(line), Trim(trimmed[..colon]), Trim(trimmed[colon + 1..]), accepts)
  }

  lemma AssignIsValid(st: State, indent: int, key: string, value: string, accepts: string -> bool)
    requires Valid(st)
    ensures Valid(Assign(st, indent, key, value, accepts))
  {
    var stack := PopTo(st.stack, indent);
    var parent := stack[|stack| - 1].id;
    var node := if value == [] then Ref(|st.store|) else Leaf(ParseValue(value, accepts));
    var st' := Assign(st, indent, key, value, accepts);
    PutKeepsOthers(st.store[parent], key, node);
    forall i, j | 0 <= i < |st'.store| && 0 <= j < |st'.store[i]| && st'.store[i][j].1.Ref?
      ensures i < st'.store[i][j].1.id < |st'.store|
    {
      if i == parent && st'.store[i][j] != (key, node) {
        assert st'.store[i][j] in st.store[i];
      }
    }
  }

  lemma StepIsValid(st: State, line: string, accepts: string -> bool)
    requires Valid(st)
    ensures Valid(Step(st, line, accepts)) && |st.store| <= |Step(st, line, accepts).store|
  {
    var trimmed := Trim(line);
    match IndexOf(trimmed, ':')
    case None =>
    case Some(colon) =>
      AssignIsValid(st, Indent(line), Trim(trimmed[..colon]), Trim(trimmed[colon + 1..]), accepts);
  }

  function Steps(st: State, lines: seq<string>, accepts: string -> bool): (st': State)
    requires Valid(st)
    ensures Valid(st')
    decreases |lines|
  {
    if lines == [] then st
    else
      StepIsValid(st, lines[0], accepts);
      Steps(Step(st, lines[0], accepts), lines[1..], accepts)
  }

  lemma {:induction false} StepsAppend(st: State, xs: seq<string>, ys: seq<string>, accepts: string -> bool)
    requires Valid(st)
    ensures Steps(st, xs + ys, accepts) == Steps(Steps(st, xs, accepts), ys, accepts)
    decreases |xs|
  {
    if xs == [] {
      assert xs + ys == ys;
    } else {
      var all := xs + ys;
      assert all[0] == xs[0] && all[1..] == xs[1..] + ys;
      var next := Step(st, xs[0], accepts);
      StepIsValid(st, xs[0], accepts);
      StepsAppend(next, xs[1..], ys, accepts);
      assert Steps(st, all, accepts) == Steps(next, xs[1..] + ys, accepts);
      assert Steps(st, xs, accepts) == Steps(next, xs[1..], accepts);
    }
  }

  lemma StepsSplit(st: State, lines: seq<string>, n: nat, accepts: string -> bool)
    requires Valid(st) && n < |lines|
    ensures Valid(Step(st, lines[0], accepts))
    ensures Steps(st, lines, accepts)
         == Steps(Steps(Step(st, lines[0], accepts), lines[1..1 + n], accepts), lines[1 + n..], accepts)
  {
    StepIsValid(st, lines[0], accepts);
    var st1, inner, rest := Step(st, lines[0], accepts), lines[1..1 + n], lines[1 + n..];
    assert inner + rest == lines[1..];
    assert Steps(st, lines, accepts) == Steps(st1, inner + rest, accepts);
    StepsAppend(st1, inner, rest, accepts);
  }

  // ---- What a store stands for ----

  /** An object keeps its entries in the order they were first assigned. */
  datatype Json = Atom(value: Scalar) | Object(entries: seq<(string, Json)>)

  ghost function Resolve(store: seq<Entries>, id: nat): Json
    requires RefsPointForward(store) && id < |store|
    decreases |store| - id, |store[id]| + 1
  {
    Object(ResolveFirst(store, id, |store[id]|))
  }

  ghost function ResolveFirst(store: seq<Entries>, id: nat, k: nat): (es: seq<(string, Json)>)
    requires RefsPointForward(store) && id < |store| && k <= |store[id]|
    ensures |es| == k
    decreases |store| - id, k
  {
    if k == 0 then []
    else
      var e := store[id][k - 1];
      ResolveFirst(store, id, k - 1)
      + [(e.0, match e.1 case Leaf(v) => Atom(v) case Ref(child) => Resolve(store, child))]
  }

  ghost function ResolveNode(store: seq<Entries>, node: Node): Json
    requires RefsPointForward(store) && (node.Ref? ==> node.id < |store|)
  {
    match node
    case Leaf(v) => Atom(v)
    case Ref(id) => Resolve(store, id)
  }

  /** An object depends on nothing created before it. */
  lemma {:induction false} ResolveLocal(store: seq<Entries>, store': seq<Entries>, id: nat, k: nat)
    requires RefsPointForward(store) && RefsPointForward(store') && id < |store| <= |store'|
    requires forall i :: id <= i < |store| ==> store'[i] == store[i]
    requires k <= |store[id]|
    ensures ResolveFirst(store', id, k) == ResolveFirst(store, id, k)
    decreases |store| - id, k
  {
    if k > 0 {
      ResolveLocal(store, store', id, k - 1);
      var node := store[id][k - 1].1;
      if node.Ref? {
        ResolveLocal(store, store', node.id, |store[node.id]|);
      }
    }
  }

  lemma {:induction false} ResolveFirstAt(store: seq<Entries>, id: nat, k: nat, i: nat)
    requires RefsPointForward(store) && id < |store| && i < k <= |store[id]|
    ensures ResolveFirst(store, id, k)[i] == (store[id][i].0, ResolveNode(store, store[id][i].1))
    decreases k
  {
    if i < k - 1 {
      ResolveFirstAt(store, id, k - 1, i);
    }
  }

  // ---- Writing a tree ----

  /** Keys the line format can carry: no colon or line break, no outer white space, and nothing
      that would make the line a comment. */
  ghost predicate WritableKey(key: string) {
    && ':' !in key && '\n' !in key
    && (key != [] ==> key[0] != '#' && !IsSpace(key[0]) && !IsSpace(key[|key| - 1]))
  }

  ghost predicate WritableTree(j: Json, accepts: string -> bool) {
    match j
    case Atom(v) => Writable(v, accepts)
    case Object(es) =>
      && (forall i, j :: 0 <= i < j < |es| ==> es[i].0 != es[j].0)
      && forall i :: 0 <= i < |es| ==> WritableKey(es[i].0) && WritableTree(es[i].1, accepts)
  }

  function HeaderLine(indent: nat, key: string): string {
    Spaces(indent) + (key + ":")
  }

  function ScalarLine(indent: nat, key: string, v: Scalar): string {
    Spaces(indent) + (key + ": " + ScalarText(v))
  }

  /** The parts of a line with a key: white space may stand on both sides of the colon and at the end. */
  ghost predicate KeyLine(line: string, indent: nat, key: string, gap: string, before: string, text: string,
                          after: string)
  {
    && line == Spaces(indent) + (key + gap + ":" + (before + text + after)) && '\n' !in line
    && AllSpace(gap) && AllSpace(before) && AllSpace(after) && (key == [] ==> gap == [])
  }

  /** A key that opens an object. */
  ghost predicate IsHeader(line: string, indent: nat, key: string) {
    exists gap, after :: KeyLine(line, indent, key, gap, [], [], after)
  }

  /** A key with a scalar, spelled in any of its ways. */
  ghost predicate IsScalarLine(line: string, indent: nat, key: string, v: Scalar, accepts: string -> bool) {
    exists gap, before, text, after :: KeyLine(line, indent, key, gap, before, text, after) && Spells(text, v, accepts)
  }

  /** White space, a comment after white space, or a line without a colon, such as an item of a list, that is
      indented at least this much. */
  ghost predicate IsPassed(line: string, indent: nat) {
    && '\n' !in line
    && (AllSpace(line) || IsComment(line) || exists k :: NoKey(line, indent, k))
  }

  ghost predicate IsComment(line: string) {
    exists k :: 0 <= k < |line| && AllSpace(line[..k]) && line[k] == '#'
  }

  ghost predicate NoKey(line: string, indent: nat, k: nat) {
    indent <= k < |line| && AllSpace(line[..k]) && !IsSpace(line[k]) && line[k] != '#' && ':' !in line
  }

  /** Whether `lines` write the entries out at this indentation. Every nested object may be indented by as much
      as it likes below its own key, and lines that carry no entry may stand anywhere. */
  ghost predicate Writes(lines: seq<string>, es: seq<(string, Json)>, indent: nat, accepts: string -> bool)
    decreases |lines|
  {
    if lines == [] then es == []
    else
      || (IsPassed(lines[0], indent) && Writes(lines[1..], es, indent, accepts))
      || (es != [] && match es[0].1
          case Atom(v) =>
            IsScalarLine(lines[0], indent, es[0].0, v, accepts) && Writes(lines[1..], es[1..], indent, accepts)
          case Object(sub) =>
            && IsHeader(lines[0], indent, es[0].0)
            && exists n, deeper :: WritesNested(lines, sub, es[1..], indent, n, deeper, accepts))
  }

  ghost predicate WritesNested(lines: seq<string>, sub: seq<(string, Json)>, rest: seq<(string, Json)>,
                               indent: nat, n: nat, deeper: nat, accepts: string -> bool)
    requires lines != []
    decreases |lines|, 0
  {
    && n < |lines| && indent < deeper
    && Writes(lines[1..1 + n], sub, deeper, accepts)
    && Writes(lines[1 + n..], rest, indent, accepts)
  }

  // ---- Reading one written line ----

  lemma SpacesAreSpace(n: nat)
    ensures AllSpace(Spaces(n))
  {
  }

  lemma NoColon(key: string, gap: string)
    requires WritableKey(key) && AllSpace(gap)
    ensures ':' !in key + gap && Trim(key + gap) == key
  {
    assert !IsSpace(':');
    TrimPadded([], key, gap);
    assert [] + key + gap == key + gap;
  }

  lemma LineTrims(indent: nat, key: string, gap: string, tail: string)
    requires WritableKey(key) && AllSpace(gap) && (key == [] ==> gap == [])
    ensures var line := Spaces(indent) + (key + gap + ":" + tail);
            Trim(line) == key + gap + [':'] + TrimEnd(tail) && Indent(line) == indent && !IsSkipped(line)
  {
    var body := key + gap + ":" + tail;
    SpacesAreSpace(indent);
    assert body[0] == if key == [] then ':' else key[0];
    TrimLine(Spaces(indent), body);
    TrimEndAfter(key + gap, ':', tail);
    assert key + gap + [':'] + tail == body;
    assert (key + gap + [':'] + TrimEnd(tail))[0] == body[0];
  }

  /** The text of a line with a key, its indentation and its key. */
  lemma LineParts(indent: nat, key: string, gap: string, tail: string)
    requires WritableKey(key) && AllSpace(gap) && (key == [] ==> gap == [])
    ensures var line := Spaces(indent) + (key + gap + ":" + tail);
            var trimmed, colon := Trim(line), |key + gap|;
            && Indent(line) == indent && !IsSkipped(line)
            && colon < |trimmed| && IndexOf(trimmed, ':') == Some(colon)
            && Trim(trimmed[..colon]) == key && trimmed[colon + 1..] == TrimEnd(tail)
  {
    LineTrims(indent, key, gap, tail);
    NoColon(key, gap);
    FirstAfter(key + gap, ':', TrimEnd(tail));
    var trimmed := key + gap + [':'] + TrimEnd(tail);
    assert trimmed[..|key + gap|] == key + gap && trimmed[|key + gap| + 1..] == TrimEnd(tail);
  }

  lemma TailIsTrimmed(before: string, text: string, after: string)
    requires AllSpace(before) && AllSpace(after)
    requires text != [] ==> !IsSpace(text[0]) && !IsSpace(text[|text| - 1])
    ensures Trim(TrimEnd(before + text + after)) == text
  {
    if text == [] {
      TrimsToNothing(before + text + after);
    } else {
      TrimEndPad(before + text, after);
      assert TrimEnd(before + text + after) == before + text;
      TrimStartPad(before, text);
      TrimEndOf(text);
    }
  }

  lemma TrimsToNothing(s: string)
    requires AllSpace(s)
    ensures TrimEnd(s) == [] && Trim(TrimEnd(s)) == []
  {
    TrimEndPad([], s);
    assert [] + s == s;
  }

  lemma TrimEndOf(text: string)
    requires text != [] && !IsSpace(text[|text| - 1])
    ensures TrimEnd(text) == text
  {
  }

  lemma ReadLine(st: State, line: string, indent: nat, key: string, gap: string, before: string, text: string,
                 after: string, accepts: string -> bool)
    requires Valid(st) && WritableKey(key) && KeyLine(line, indent, key, gap, before, text, after)
    requires text != [] ==> !IsSpace(text[0]) && !IsSpace(text[|text| - 1])
    ensures Step(st, line, accepts) == Assign(st, indent, key, text, accepts)
  {
    LineParts(indent, key, gap, before + text + after);
    TailIsTrimmed(before, text, after);
  }

  lemma ReadHeader(st: State, line: string, indent: nat, key: string, accepts: string -> bool)
    requires Valid(st) && WritableKey(key) && IsHeader(line, indent, key)
    ensures Step(st, line, accepts) == Assign(st, indent, key, "", accepts)
  {
    var gap, after :| KeyLine(line, indent, key, gap, [], [], after);
    ReadLine(st, line, indent, key, gap, [], [], after, accepts);
  }

  lemma ReadScalar(st: State, line: string, indent: nat, key: string, v: Scalar, accepts: string -> bool)
    requires Valid(st) && WritableKey(key) && Writable(v, accepts) && IsScalarLine(line, indent, key, v, accepts)
    ensures var p := Owner(st, indent);
            Step(st, line, accepts) == State(st.store[p := Put(st.store[p], key, Leaf(v))], PopTo(st.stack, indent))
  {
    var gap, before, text, after :| KeyLine(line, indent, key, gap, before, text, after) && Spells(text, v, accepts);
    ScalarTextIsTrimmed(text, v, accepts);
    ParseScalarText(text, v, accepts);
    ReadLine(st, line, indent, key, gap, before, text, after, accepts);
  }

  /** A line that carries no entry leaves the store alone and the next owner at this indentation. */
  lemma ReadPassed(st: State, line: string, indent: nat, accepts: string -> bool)
    requires Valid(st) && IsPassed(line, indent)
    ensures var st' := Step(st, line, accepts);
            Valid(st') && st'.store == st.store && PopTo(st'.stack, indent) == PopTo(st.stack, indent)
  {
    StepIsValid(st, line, accepts);
    if AllSpace(line) || IsComment(line) {
      SkipsThese(line);
    } else {
      var k :| NoKey(line, indent, k);
      ReadWithoutKey(st, line, indent, k, accepts);
    }
  }

  lemma SkipsThese(line: string)
    requires AllSpace(line) || IsComment(line)
    ensures IsSkipped(line)
  {
    if AllSpace(line) {
      TrimStartPad(line, []);
      assert line + [] == line;
    } else {
      var k :| 0 <= k < |line| && AllSpace(line[..k]) && line[k] == '#';
      SkipsComment(line[..k], line[k + 1..]);
      assert line == line[..k] + (['#'] + line[k + 1..]);
    }
  }

  lemma SkipsComment(pad: string, comment: string)
    requires AllSpace(pad)
    ensures IsSkipped(pad + (['#'] + comment))
  {
    var body := ['#'] + comment;
    TrimLine(pad, body);
    TrimEndAfter([], '#', comment);
    assert [] + ['#'] + comment == body;
  }

  lemma ReadWithoutKey(st: State, line: string, indent: nat, k: nat, accepts: string -> bool)
    requires Valid(st) && NoKey(line, indent, k)
    ensures var st' := Step(st, line, accepts);
            st'.store == st.store && PopTo(st'.stack, indent) == PopTo(st.stack, indent)
  {
    TrimLine(line[..k], line[k..]);
    assert line == line[..k] + line[k..];
    TrimEndWithout(line[k..], ':');
    FoundAt(Trim(line), ':');
    PopTwice(st.stack, indent, k);
  }

  // ---- Reading undoes writing ----

  lemma {:induction false} PopTwice(stack: seq<Frame>, indent: int, deeper: int)
    requires indent <= deeper
    ensures PopTo(PopTo(stack, deeper), indent) == PopTo(stack, indent)
    decreases |stack|
  {
    if |stack| > 1 && stack[|stack| - 1].indent >= deeper {
      PopTwice(stack[..|stack| - 1], indent, deeper);
    }
  }

  /** Entry `e` of a store stands for this key and value, built from objects not older than `floor`. */
  ghost predicate Stands(store: seq<Entries>, e: (string, Node), entry: (string, Json), floor: nat)
    requires RefsPointForward(store)
  {
    && e.0 == entry.0
    && (e.1.Ref? ==> floor <= e.1.id < |store|)
    && ResolveNode(store, e.1) == entry.1
  }

  /** After reading the entries the owner has them at its end, everything else that existed is as
      it was, and the next line at this indentation still finds the same owner. */
  ghost predicate Appended(st: State, st': State, es: seq<(string, Json)>, indent: nat)
    requires Valid(st) && Valid(st')
  {
    var p := Owner(st, indent);
    && |st.store| <= |st'.store|
    && PopTo(st'.stack, indent) == PopTo(st.stack, indent)
    && (forall i :: 0 <= i < |st.store| && i != p ==> st'.store[i] == st.store[i])
    && st.store[p] <= st'.store[p]
    && var added := st'.store[p][|st.store[p]|..];
       && |added| == |es|
       && forall i :: 0 <= i < |es| ==> Stands(st'.store, added[i], es[i], |st.store|)
  }

  ghost predicate NewKeys(have: Entries, es: seq<(string, Json)>) {
    forall i, j :: 0 <= i < |have| && 0 <= j < |es| ==> have[i].0 != es[j].0
  }

  /** Reading one entry and then the rest. */
  lemma AppendedThen(st: State, mid: State, st': State, es: seq<(string, Json)>, indent: nat)
    requires Valid(st) && Valid(mid) && Valid(st') && es != []
    requires Appended(st, mid, [es[0]], indent) && Appended(mid, st', es[1..], indent)
    ensures Appended(st, st', es, indent)
  {
    var p := Owner(st, indent);
    var first, rest := mid.store[p][|st.store[p]|..], st'.store[p][|mid.store[p]|..];
    var added := st'.store[p][|st.store[p]|..];
    assert added == first + rest;
    forall i | 0 <= i < |es|
      ensures Stands(st'.store, added[i], es[i], |st.store|)
    {
      if i == 0 {
        var e := first[0];
        assert Stands(mid.store, e, [es[0]][0], |st.store|);
        if e.1.Ref? {
          ResolveLocal(mid.store, st'.store, e.1.id, |mid.store[e.1.id]|);
        }
      } else {
        assert Stands(st'.store, rest[i - 1], es[1..][i - 1], |mid.store|);
      }
    }
  }

  lemma AppendedScalar(st: State, line: string, key: string, v: Scalar, indent: nat, accepts: string -> bool)
    requires Valid(st) && WritableKey(key) && Writable(v, accepts) && IsScalarLine(line, indent, key, v, accepts)
    requires NewKeys(st.store[Owner(st, indent)], [(key, Atom(v))])
    ensures Valid(Step(st, line, accepts))
    ensures Appended(st, Step(st, line, accepts), [(key, Atom(v))], indent)
  {
    var p := Owner(st, indent);
    ReadScalar(st, line, indent, key, v, accepts);
    StepIsValid(st, line, accepts);
    FreshKeyGoesLast(st.store[p], key, Leaf(v), Atom(v));
    PopTwice(st.stack, indent, indent);
  }

  lemma FreshKeyGoesLast(es: Entries, key: string, node: Node, j: Json)
    requires NewKeys(es, [(key, j)])
    ensures Put(es, key, node) == es + [(key, node)]
  {
    forall e | e in es
      ensures e.0 != key
    {
      var i :| 0 <= i < |es| && es[i] == e;
      assert [(key, j)][0].0 == key;
    }
    PutKeepsOthers(es, key, node);
  }

  /** The state just after a header line: its object is empty and owns what is indented deeper. */
  lemma AfterHeader(st: State, line: string, key: string, indent: nat, deeper: nat, accepts: string -> bool)
    requires Valid(st) && WritableKey(key) && indent < deeper && IsHeader(line, indent, key)
    ensures var st1 := Step(st, line, accepts);
            && Valid(st1) && |st1.store| == |st.store| + 1
            && Owner(st1, deeper) == |st.store| && st1.store[|st.store|] == []
            && PopTo(st1.stack, indent) == PopTo(st.stack, indent)
            && PopTo(st1.stack, deeper) == st1.stack
            && st1.store[..|st.store|]
               == st.store[Owner(st, indent) := Put(st.store[Owner(st, indent)], key, Ref(|st.store|))]
  {
    ReadHeader(st, line, indent, key, accepts);
    StepIsValid(st, line, accepts);
    var st1 := Step(st, line, accepts);
    var stack := PopTo(st.stack, indent);
    assert st1.stack[..|st1.stack| - 1] == stack;
    PopTwice(st.stack, indent, indent);
  }

  /** An object whose entries stand for `sub` resolves to it. */
  lemma ResolvesTo(store: seq<Entries>, id: nat, sub: seq<(string, Json)>, floor: nat)
    requires RefsPointForward(store) && id < |store| && |store[id]| == |sub|
    requires forall i :: 0 <= i < |sub| ==> Stands(store, store[id][i], sub[i], floor)
    ensures Resolve(store, id) == Object(sub)
  {
    var resolved := ResolveFirst(store, id, |sub|);
    forall i | 0 <= i < |sub|
      ensures resolved[i] == sub[i]
    {
      ResolveFirstAt(store, id, |sub|, i);
      assert Stands(store, store[id][i], sub[i], floor);
    }
    assert resolved == sub;
  }

  lemma ChildIsComplete(st1: State, mid: State, sub: seq<(string, Json)>, deeper: nat)
    requires Valid(st1) && Valid(mid) && Appended(st1, mid, sub, deeper)
    requires st1.store[Owner(st1, deeper)] == []
    ensures Resolve(mid.store, Owner(st1, deeper)) == Object(sub)
  {
    var child := Owner(st1, deeper);
    assert mid.store[child][0..] == mid.store[child];
    ResolvesTo(mid.store, child, sub, |st1.store|);
  }

  lemma AppendedObject(st: State, line: string, key: string, sub: seq<(string, Json)>, indent: nat, deeper: nat,
                       mid: State, accepts: string -> bool)
    requires Valid(st) && Valid(mid) && WritableKey(key) && indent < deeper && IsHeader(line, indent, key)
    requires NewKeys(st.store[Owner(st, indent)], [(key, Object(sub))])
    requires Valid(Step(st, line, accepts))
    requires Appended(Step(st, line, accepts), mid, sub, deeper)
    ensures Appended(st, mid, [(key, Object(sub))], indent)
  {
    var p, child := Owner(st, indent), |st.store|;
    AfterHeader(st, line, key, indent, deeper, accepts);
    FreshKeyGoesLast(st.store[p], key, Ref(child), Object(sub));
    var st1 := Step(st, line, accepts);
    ChildIsComplete(st1, mid, sub, deeper);
    UntouchedSpine(st.store, st1.store, mid.store, p, (key, Ref(child)));
    PopTwice(mid.stack, indent, deeper);
    PopTwice(st1.stack, indent, deeper);
    AppendedOne(st, mid, (key, Ref(child)), (key, Object(sub)), indent);
  }

  lemma AppendedOne(st: State, st': State, e: (string, Node), entry: (string, Json), indent: nat)
    requires Valid(st) && Valid(st') && |st.store| <= |st'.store|
    requires PopTo(st'.stack, indent) == PopTo(st.stack, indent)
    requires st'.store[Owner(st, indent)] == st.store[Owner(st, indent)] + [e]
    requires forall i :: 0 <= i < |st.store| && i != Owner(st, indent) ==> st'.store[i] == st.store[i]
    requires Stands(st'.store, e, entry, |st.store|)
    ensures Appended(st, st', [entry], indent)
  {
    var p := Owner(st, indent);
    assert st'.store[p][|st.store[p]|..] == [e];
  }

  lemma UntouchedSpine(before: seq<Entries>, shared: seq<Entries>, after: seq<Entries>, p: nat, e: (string, Node))
    requires p < |before| && |shared| == |before| + 1 && |before| < |after|
    requires shared[..|before|] == before[p := before[p] + [e]]
    requires forall i :: 0 <= i < |before| ==> after[i] == shared[i]
    ensures after[p] == before[p] + [e]
    ensures forall i :: 0 <= i < |before| && i != p ==> after[i] == before[i]
  {
    forall i | 0 <= i < |before|
      ensures after[i] == before[p := before[p] + [e]][i]
    {
      assert shared[i] == shared[..|before|][i];
    }
  }

  lemma {:induction false} ReadWritten(st: State, lines: seq<string>, es: seq<(string, Json)>, indent: nat,
                                       accepts: string -> bool)
    requires Valid(st) && Writes(lines, es, indent, accepts) && WritableTree(Object(es), accepts)
    requires NewKeys(st.store[Owner(st, indent)], es)
    ensures Appended(st, Steps(st, lines, accepts), es, indent)
    decreases |lines|, 2
  {
    if lines == [] {
    } else if IsPassed(lines[0], indent) && Writes(lines[1..], es, indent, accepts) {
      ReadPassed(st, lines[0], indent, accepts);
      ReadWritten(Step(st, lines[0], accepts), lines[1..], es, indent, accepts);
    } else {
      match es[0].1
      case Atom(v) =>
        AppendedScalar(st, lines[0], es[0].0, v, indent, accepts);
        assert [es[0]] == [(es[0].0, Atom(v))];
        ReadRest(st, Step(st, lines[0], accepts), lines[1..], es, indent, accepts);
      case Object(sub) =>
        var n, deeper :| WritesNested(lines, sub, es[1..], indent, n, deeper, accepts);
        ReadNested(st, lines, es, sub, indent, n, deeper, accepts);
    }
  }

  lemma {:induction false} ReadObject(st: State, line: string, inner: seq<string>, key: string,
                                      sub: seq<(string, Json)>, indent: nat, deeper: nat, accepts: string -> bool)
    requires Valid(st) && WritableKey(key) && WritableTree(Object(sub), accepts)
    requires indent < deeper && IsHeader(line, indent, key) && Writes(inner, sub, deeper, accepts)
    requires NewKeys(st.store[Owner(st, indent)], [(key, Object(sub))])
    ensures var st1 := Step(st, line, accepts);
            Valid(st1) && Appended(st, Steps(st1, inner, accepts), [(key, Object(sub))], indent)
    decreases |inner| + 1, 0
  {
    AfterHeader(st, line, key, indent, deeper, accepts);
    var st1 := Step(st, line, accepts);
    ReadWritten(st1, inner, sub, deeper, accepts);
    AppendedObject(st, line, key, sub, indent, deeper, Steps(st1, inner, accepts), accepts);
  }

  lemma {:induction false} ReadNested(st: State, lines: seq<string>, es: seq<(string, Json)>, sub: seq<(string, Json)>,
                                      indent: nat, n: nat, deeper: nat, accepts: string -> bool)
    requires Valid(st) && es != [] && es[0].1 == Object(sub) && WritableTree(Object(es), accepts)
    requires lines != [] && IsHeader(lines[0], indent, es[0].0)
    requires WritesNested(lines, sub, es[1..], indent, n, deeper, accepts)
    requires NewKeys(st.store[Owner(st, indent)], es)
    ensures Appended(st, Steps(st, lines, accepts), es, indent)
    decreases |lines|, 1
  {
    var inner, rest := lines[1..1 + n], lines[1 + n..];
    var entry := (es[0].0, Object(sub));
    assert entry == es[0];
    ReadObject(st, lines[0], inner, entry.0, sub, indent, deeper, accepts);
    var st1 := Step(st, lines[0], accepts);
    var mid := Steps(st1, inner, accepts);
    assert [es[0]] == [entry];
    StepsSplit(st, lines, n, accepts);
    ReadRest(st, mid, rest, es, indent, accepts);
  }

  lemma WritableRest(es: seq<(string, Json)>, accepts: string -> bool)
    requires es != [] && WritableTree(Object(es), accepts)
    ensures WritableTree(Object(es[1..]), accepts)
  {
    var rest := es[1..];
    forall i, j | 0 <= i < j < |rest|
      ensures rest[i].0 != rest[j].0
    {
      assert rest[i] == es[i + 1] && rest[j] == es[j + 1];
    }
    forall i | 0 <= i < |rest|
      ensures WritableKey(rest[i].0) && WritableTree(rest[i].1, accepts)
    {
      assert rest[i] == es[i + 1];
    }
  }

  lemma {:induction false} ReadRest(st: State, mid: State, lines: seq<string>, es: seq<(string, Json)>, indent: nat,
                                    accepts: string -> bool)
    requires Valid(st) && Valid(mid) && es != [] && WritableTree(Object(es), accepts)
    requires Writes(lines, es[1..], indent, accepts)
    requires NewKeys(st.store[Owner(st, indent)], es)
    requires Appended(st, mid, [es[0]], indent)
    ensures Appended(st, Steps(mid, lines, accepts), es, indent)
    decreases |lines| + 1, 0
  {
    var p, rest := Owner(st, indent), es[1..];
    assert Owner(mid, indent) == p;
    forall i, j | 0 <= i < |mid.store[p]| && 0 <= j < |rest|
      ensures mid.store[p][i].0 != rest[j].0
    {
      assert rest[j] == es[j + 1];
      if i == |st.store[p]| {
        assert Stands(mid.store, mid.store[p][|st.store[p]|..][0], [es[0]][0], |st.store|);
      } else {
        assert mid.store[p][i] == st.store[p][i];
      }
    }
    WritableRest(es, accepts);
    ReadWritten(mid, lines, rest, indent, accepts);
    AppendedThen(st, mid, Steps(mid, lines, accepts), es, indent);
  }

  // ---- The round trip on texts ----

  lemma FreeOfFirst(lines: seq<string>)
    requires lines != [] && '\n' !in lines[0] && FreeOf(lines[1..], '\n')
    ensures FreeOf(lines, '\n')
  {
    assert lines == [lines[0]] + lines[1..];
  }

  lemma FreeOfNested(lines: seq<string>, n: nat)
    requires n < |lines| && '\n' !in lines[0] && FreeOf(lines[1..1 + n], '\n') && FreeOf(lines[1 + n..], '\n')
    ensures FreeOf(lines, '\n')
  {
    assert lines == [lines[0]] + lines[1..1 + n] + lines[1 + n..];
  }

  lemma {:induction false} WrittenLinesHaveNoBreaks(lines: seq<string>, es: seq<(string, Json)>, indent: nat,
                                                    accepts: string -> bool)
    requires Writes(lines, es, indent, accepts)
    ensures FreeOf(lines, '\n')
    decreases |lines|
  {
    if lines == [] {
    } else if IsPassed(lines[0], indent) && Writes(lines[1..], es, indent, accepts) {
      WrittenLinesHaveNoBreaks(lines[1..], es, indent, accepts);
      FreeOfFirst(lines);
    } else {
      match es[0].1
      case Atom(v) =>
        WrittenLinesHaveNoBreaks(lines[1..], es[1..], indent, accepts);
        FreeOfFirst(lines);
      case Object(sub) =>
        var n: nat, deeper: nat :| WritesNested(lines, sub, es[1..], indent, n, deeper, accepts);
        WrittenLinesHaveNoBreaks(lines[1..1 + n], sub, deeper, accepts);
        WrittenLinesHaveNoBreaks(lines[1 + n..], es[1..], indent, accepts);
        FreeOfNested(lines, n);
    }
  }

  /** What the reader makes of a text: the object numbered zero. */
  ghost function Read(text: string, accepts: string -> bool): Json {
    Resolve(Steps(EMPTY, Split(text, '\n'), accepts).store, 0)
  }

  /** These lines, of a tree that can be written, are the text. */
  ghost predicate IsText(yaml: string, lines: seq<string>, es: seq<(string, Json)>, indent: nat,
                         accepts: string -> bool)
  {
    Writes(lines, es, indent, accepts) && WritableTree(Object(es), accepts) && yaml == Join(lines, '\n')
  }

  /** Every tree with writable keys and scalars, written out in any way whose indentation grows level by level,
      with its texts quoted or bare, white space around keys and values, and blank lines, comments and items of
      lists wherever one likes, is read back unchanged. */
  lemma ReadUndoesWrite(lines: seq<string>, es: seq<(string, Json)>, indent: nat, accepts: string -> bool)
    requires Writes(lines, es, indent, accepts) && WritableTree(Object(es), accepts)
    ensures Read(Join(lines, '\n'), accepts) == Object(es)
  {
    if lines == [] {
      SplitPiece("", '\n');
      assert IsSkipped("");
      assert Steps(EMPTY, [""], accepts) == EMPTY;
      assert Resolve(EMPTY.store, 0).entries == [];
    } else {
      WrittenLinesHaveNoBreaks(lines, es, indent, accepts);
      SplitJoin(lines, '\n');
      ReadWritten(EMPTY, lines, es, indent, accepts);
      var st' := Steps(EMPTY, lines, accepts);
      assert Owner(EMPTY, indent) == 0;
      assert st'.store[0][0..] == st'.store[0];
      ResolvesTo(st'.store, 0, es, 1);
    }
  }

  // ---- One such way of writing: a fixed number of columns per level ----

  function Print(j: Json, indent: nat, unit: nat): seq<string> {
    match j
    case Atom(_) => []
    case Object(es) => PrintFirst(j, |es|, indent, unit)
  }

  /** The lines of the last `k` entries. */
  function PrintFirst(j: Json, k: nat, indent: nat, unit: nat): seq<string>
    requires j.Object? && k <= |j.entries|
    decreases j, k
  {
    if k == 0 then []
    else
      var e := j.entries[|j.entries| - k];
      (match e.1
       case Atom(v) => [ScalarLine(indent, e.0, v)]
       case Object(_) => [HeaderLine(indent, e.0)] + PrintFirst(e.1, |e.1.entries|, indent + unit, unit))
      + PrintFirst(j, k - 1, indent, unit)
  }

  lemma PrintedHeader(indent: nat, key: string)
    requires WritableKey(key)
    ensures IsHeader(HeaderLine(indent, key), indent, key)
  {
    var line := HeaderLine(indent, key);
    assert key + ":" == key + [] + ":" + ([] + [] + []);
    assert KeyLine(line, indent, key, [], [], [], []);
  }

  lemma PrintedScalar(indent: nat, key: string, v: Scalar, accepts: string -> bool)
    requires WritableKey(key) && Writable(v, accepts)
    ensures IsScalarLine(ScalarLine(indent, key, v), indent, key, v, accepts)
  {
    var text, line := ScalarText(v), ScalarLine(indent, key, v);
    ScalarTextIsTrimmed(text, v, accepts);
    assert key + ": " + text == key + [] + ":" + (" " + text + []);
    assert KeyLine(line, indent, key, [], " ", text, []);
  }

  /** The lines of one entry. */
  function EntryLines(e: (string, Json), indent: nat, unit: nat): seq<string> {
    match e.1
    case Atom(v) => [ScalarLine(indent, e.0, v)]
    case Object(sub) => [HeaderLine(indent, e.0)] + PrintFirst(e.1, |sub|, indent + unit, unit)
  }

  lemma {:induction false} PrintFirstWrites(j: Json, k: nat, indent: nat, unit: nat, accepts: string -> bool)
    requires j.Object? && k <= |j.entries| && unit > 0 && WritableTree(j, accepts)
    ensures Writes(PrintFirst(j, k, indent, unit), j.entries[|j.entries| - k..], indent, accepts)
    decreases j, k, 0
  {
    if k > 0 {
      PrintFirstWrites(j, k - 1, indent, unit, accepts);
      PrintEntryWrites(j, k, indent, unit, accepts);
    }
  }

  lemma {:induction false} PrintEntryWrites(j: Json, k: nat, indent: nat, unit: nat, accepts: string -> bool)
    requires j.Object? && 0 < k <= |j.entries| && unit > 0 && WritableTree(j, accepts)
    requires Writes(PrintFirst(j, k - 1, indent, unit), j.entries[|j.entries| - (k - 1)..], indent, accepts)
    ensures Writes(PrintFirst(j, k, indent, unit), j.entries[|j.entries| - k..], indent, accepts)
    decreases j, k - 1, 1
  {
    var n := |j.entries| - k;
    var e, after, rest := j.entries[n], PrintFirst(j, k - 1, indent, unit), j.entries[n + 1..];
    assert n + 1 == |j.entries| - (k - 1);
    if e.1.Object? {
      PrintFirstWrites(e.1, |e.1.entries|, indent + unit, unit, accepts);
      assert e.1.entries[0..] == e.1.entries;
    }
    PrintsEntry(j, k, indent, unit);
    assert j.entries[n..][0] == e && j.entries[n..][1..] == rest;
    EntryWrites(PrintFirst(j, k, indent, unit), after, j.entries[n..], indent, unit, accepts);
  }

  lemma PrintsEntry(j: Json, k: nat, indent: nat, unit: nat)
    requires j.Object? && 0 < k <= |j.entries|
    ensures PrintFirst(j, k, indent, unit)
         == EntryLines(j.entries[|j.entries| - k], indent, unit) + PrintFirst(j, k - 1, indent, unit)
  {
  }

  lemma EntryWrites(lines: seq<string>, after: seq<string>, es: seq<(string, Json)>, indent: nat, unit: nat,
                    accepts: string -> bool)
    requires es != [] && unit > 0 && WritableKey(es[0].0) && WritableTree(es[0].1, accepts)
    requires lines == EntryLines(es[0], indent, unit) + after && Writes(after, es[1..], indent, accepts)
    requires var j := es[0].1;
             j.Object? ==> Writes(PrintFirst(j, |j.entries|, indent + unit, unit), j.entries, indent + unit, accepts)
    ensures Writes(lines, es, indent, accepts)
  {
    var key, j := es[0].0, es[0].1;
    if j.Atom? {
      PrintedScalar(indent, key, j.value, accepts);
      ScalarWrites(lines, ScalarLine(indent, key, j.value), j.value, after, es, indent, accepts);
    } else {
      var inner := PrintFirst(j, |j.entries|, indent + unit, unit);
      PrintedHeader(indent, key);
      ObjectWrites(lines, HeaderLine(indent, key), inner, after, j.entries, es, indent, indent + unit, accepts);
    }
  }

  lemma ObjectWrites(lines: seq<string>, header: string, inner: seq<string>, after: seq<string>,
                     sub: seq<(string, Json)>, es: seq<(string, Json)>, indent: nat, deeper: nat,
                     accepts: string -> bool)
    requires es != [] && es[0].1 == Object(sub) && IsHeader(header, indent, es[0].0) && indent < deeper
    requires lines == [header] + inner + after
    requires Writes(inner, sub, deeper, accepts) && Writes(after, es[1..], indent, accepts)
    ensures Writes(lines, es, indent, accepts)
  {
    NestedWrites(header, inner, after, sub, es[1..], indent, deeper, accepts);
  }

  lemma ScalarWrites(lines: seq<string>, line: string, v: Scalar, after: seq<string>, es: seq<(string, Json)>,
                     indent: nat, accepts: string -> bool)
    requires es != [] && es[0].1 == Atom(v) && IsScalarLine(line, indent, es[0].0, v, accepts)
    requires lines == [line] + after && Writes(after, es[1..], indent, accepts)
    ensures Writes(lines, es, indent, accepts)
  {
    assert lines[1..] == after;
  }

  lemma NestedWrites(header: string, inner: seq<string>, after: seq<string>, sub: seq<(string, Json)>,
                     rest: seq<(string, Json)>, indent: nat, deeper: nat, accepts: string -> bool)
    requires indent < deeper && Writes(inner, sub, deeper, accepts) && Writes(after, rest, indent, accepts)
    ensures WritesNested([header] + inner + after, sub, rest, indent, |inner|, deeper, accepts)
  {
    var lines := [header] + inner + after;
    assert lines[1..1 + |inner|] == inner && lines[1 + |inner|..] == after;
  }

  /** Printing with a fixed step and reading is the identity on writable trees. */
  lemma ReadPrint(j: Json, indent: nat, unit: nat, accepts: string -> bool)
    requires j.Object? && unit > 0 && WritableTree(j, accepts)
    ensures Read(Join(Print(j, indent, unit), '\n'), accepts) == j
  {
    PrintFirstWrites(j, |j.entries|, indent, unit, accepts);
    assert j.entries[0..] == j.entries;
    ReadUndoesWrite(Print(j, indent, unit), j.entries, indent, accepts);
  }

  // ---- The stack holds the ancestors of the current line ----

  ghost predicate HasChild(es: Entries, id: nat) {
    exists e :: e in es && e.1 == Ref(id)
  }

  /** The frame is a deeper-indented child of the one below it. */
  ghost predicate Below(store: seq<Entries>, lower: Frame, upper: Frame) {
    lower.indent < upper.indent && lower.id < |store| && HasChild(store[lower.id], upper.id)
  }

  /** Indentations grow up the stack, and each object on it is a child of the one below. */
  ghost predicate AncestorChain(store: seq<Entries>, stack: seq<Frame>) {
    && stack != [] && stack[0] == Frame(0, -1)
    && forall i :: 1 <= i < |stack| ==> Below(store, stack[i - 1], stack[i])
  }

  lemma {:induction false} StackIsAncestorChain(lines: seq<string>, accepts: string -> bool)
    ensures var st := Steps(EMPTY, lines, accepts); AncestorChain(st.store, st.stack)
    decreases |lines|
  {
    if lines != [] {
      var before, last := lines[..|lines| - 1], lines[|lines| - 1];
      StackIsAncestorChain(before, accepts);
      StepsAppend(EMPTY, before, [last], accepts);
      assert before + [last] == lines;
      var st := Steps(EMPTY, before, accepts);
      assert Steps(st, [last], accepts) == Step(st, last, accepts);
      StepKeepsChain(st, last, accepts);
    }
  }

  lemma StepKeepsChain(st: State, line: string, accepts: string -> bool)
    requires Valid(st) && AncestorChain(st.store, st.stack)
    ensures var st' := Step(st, line, accepts); AncestorChain(st'.store, st'.stack)
  {
    var trimmed := Trim(line);
    match IndexOf(trimmed, ':')
    case None =>
    case Some(colon) =>
      AssignKeepsChain(st, Indent(line), Trim(trimmed[..colon]), Trim(trimmed[colon + 1..]), accepts);
  }

  lemma ChildIsNewer(st: State, lower: Frame, upper: Frame)
    requires Valid(st) && Below(st.store, lower, upper)
    ensures lower.id < upper.id
  {
    var e :| e in st.store[lower.id] && e.1 == Ref(upper.id);
    var j :| 0 <= j < |st.store[lower.id]| && st.store[lower.id][j] == e;
  }

  lemma {:induction false} IdsGrow(st: State, stack: seq<Frame>, i: nat, j: nat)
    requires Valid(st) && AncestorChain(st.store, stack) && i < j < |stack|
    ensures stack[i].id < stack[j].id
    decreases j
  {
    ChildIsNewer(st, stack[j - 1], stack[j]);
    if i < j - 1 {
      IdsGrow(st, stack, i, j - 1);
    }
  }

  lemma {:induction false} PopStopsBelow(stack: seq<Frame>, indent: int)
    requires stack != []
    ensures var left := PopTo(stack, indent); |left| == 1 || left[|left| - 1].indent < indent
    decreases |stack|
  {
    if |stack| > 1 && stack[|stack| - 1].indent >= indent {
      PopStopsBelow(stack[..|stack| - 1], indent);
    }
  }

  lemma AssignKeepsChain(st: State, indent: nat, key: string, value: string, accepts: string -> bool)
    requires Valid(st) && AncestorChain(st.store, st.stack)
    ensures var st' := Assign(st, indent, key, value, accepts); AncestorChain(st'.store, st'.stack)
  {
    PopStopsBelow(st.stack, indent);
    var stack := PopTo(st.stack, indent);
    var st' := Assign(st, indent, key, value, accepts);
    var top := |stack| - 1;
    var parent := stack[top];
    assert AncestorChain(st.store, stack);
    forall i | 1 <= i < |stack|
      ensures Below(st'.store, stack[i - 1], stack[i])
    {
      IdsGrow(st, stack, i - 1, top);
      assert st'.store[stack[i - 1].id] == st.store[stack[i - 1].id];
    }
    if value == [] {
      var node := Ref(|st.store|);
      PutKeepsOthers(st.store[parent.id], key, node);
      assert (key, node) in st'.store[parent.id];
      assert Below(st'.store, parent, Frame(|st.store|, indent));
    }
  }

  // ---- The program ----

  datatype Value = Scalar(value: YamlText.Scalar) | Child(child: YamlObject)

  class YamlObject {
    var entries: seq<(string, Value)>

    constructor ()
      ensures entries == []
    {
      entries := [];
    }

    /** Property assignment. */
    method Set(key: string, value: Value)
      modifies this
      ensures entries == Put(old(entries), key, value)
    {
      entries := Put(entries, key, value);
    }
  }

  datatype OpenObject = OpenObject(obj: YamlObject, indent: int)

  ghost predicate SameNode(objs: seq<YamlObject>, v: Value, node: Node) {
    match node
    case Leaf(s) => v == Scalar(s)
    case Ref(id) => id < |objs| && v == Child(objs[id])
  }

  ghost predicate SameEntries(objs: seq<YamlObject>, vs: seq<(string, Value)>, es: Entries) {
    |vs| == |es| && forall j :: 0 <= j < |es| ==> vs[j].0 == es[j].0 && SameNode(objs, vs[j].1, es[j].1)
  }

  /** The objects, in order of creation, are the store. */
  ghost predicate Mirrors(objs: seq<YamlObject>, store: seq<Entries>)
    reads objs
  {
    && |objs| == |store|
    && (forall i, j :: 0 <= i < j < |objs| ==> objs[i] != objs[j])
    && forall i :: 0 <= i < |objs| ==> SameEntries(objs, objs[i].entries, store[i])
  }

  ghost predicate SameStack(objs: seq<YamlObject>, stack: seq<OpenObject>, frames: seq<Frame>) {
    && |stack| == |frames|
    && forall i :: 0 <= i < |stack| ==>
         frames[i].id < |objs| && stack[i].obj == objs[frames[i].id] && stack[i].indent == frames[i].indent
  }

  /** The object graph below `v` is this tree. */
  ghost predicate Denotes(objs: seq<YamlObject>, v: Value, j: Json)
    reads objs
    decreases j
  {
    match j
    case Atom(s) => v == Scalar(s)
    case Object(es) =>
      && v.Child? && v.child in objs && |v.child.entries| == |es|
      && forall i :: 0 <= i < |es| ==>
           v.child.entries[i].0 == es[i].0 && Denotes(objs, v.child.entries[i].1, es[i].1)
  }

  lemma {:induction false} MirrorsDenotes(objs: seq<YamlObject>, store: seq<Entries>, id: nat)
    requires Mirrors(objs, store) && RefsPointForward(store) && id < |store|
    ensures Denotes(objs, Child(objs[id]), Resolve(store, id))
    decreases |store| - id
  {
    var vs, es := objs[id].entries, store[id];
    assert SameEntries(objs, vs, es);
    forall i | 0 <= i < |es|
      ensures var e := ResolveFirst(store, id, |es|)[i]; vs[i].0 == e.0 && Denotes(objs, vs[i].1, e.1)
    {
      ResolveFirstAt(store, id, |es|, i);
      assert SameNode(objs, vs[i].1, es[i].1);
      if es[i].1.Ref? {
        MirrorsDenotes(objs, store, es[i].1.id);
      }
    }
  }

  lemma {:induction false} PutMirrors(objs: seq<YamlObject>, vs: seq<(string, Value)>, es: Entries, key: string,
                                      v: Value, node: Node)
    requires SameEntries(objs, vs, es) && SameNode(objs, v, node)
    ensures SameEntries(objs, Put(vs, key, v), Put(es, key, node))
    decreases |es|
  {
    if es != [] && es[0].0 != key {
      PutMirrors(objs, vs[1..], es[1..], key, v, node);
      assert Put(vs, key, v)[1..] == Put(vs[1..], key, v);
      assert Put(es, key, node)[1..] == Put(es[1..], key, node);
    } else {
      assert es != [] ==> Put(vs, key, v)[1..] == vs[1..] && Put(es, key, node)[1..] == es[1..];
    }
  }

  lemma OneMoreLine(lines: seq<string>, n: nat, accepts: string -> bool)
    requires n < |lines|
    ensures Steps(EMPTY, lines[..n + 1], accepts) == Step(Steps(EMPTY, lines[..n], accepts), lines[n], accepts)
  {
    StepsAppend(EMPTY, lines[..n], [lines[n]], accepts);
    assert lines[..n] + [lines[n]] == lines[..n + 1];
    var st := Steps(EMPTY, lines[..n], accepts);
    assert Steps(st, [lines[n]], accepts) == Step(st, lines[n], accepts);
  }

  /** Pops the objects that a line with this indentation is not inside of. */
  method PopClosed(stack: seq<OpenObject>, indent: int, ghost objs: seq<YamlObject>, ghost frames: seq<Frame>)
    returns (left: seq<OpenObject>)
    requires SameStack(objs, stack, frames)
    ensures SameStack(objs, left, PopTo(frames, indent))
  {
    left := stack;
    ghost var rest := frames;
    while |left| > 1 && left[|left| - 1].indent >= indent
      invariant SameStack(objs, left, rest)
      invariant PopTo(rest, indent) == PopTo(frames, indent)
    {
      left := left[..|left| - 1];
      rest := rest[..|rest| - 1];
    }
  }

  lemma MoreObjects(objs: seq<YamlObject>, child: YamlObject, vs: seq<(string, Value)>, es: Entries)
    requires SameEntries(objs, vs, es)
    ensures SameEntries(objs + [child], vs, es)
  {
    forall j | 0 <= j < |es|
      ensures SameNode(objs + [child], vs[j].1, es[j].1)
    {
      assert SameNode(objs, vs[j].1, es[j].1);
    }
  }

  /** A key without a value: a new object, assigned to its parent and put on the stack. */
  method OpenChild(key: string, indent: int, stack: seq<OpenObject>, ghost objs: seq<YamlObject>, ghost st: State,
                   ghost accepts: string -> bool)
    returns (pushed: seq<OpenObject>, ghost all: seq<YamlObject>)
    requires Valid(st) && Mirrors(objs, st.store) && SameStack(objs, stack, PopTo(st.stack, indent))
    modifies stack[|stack| - 1].obj
    ensures var st' := Assign(st, indent, key, "", accepts);
            Mirrors(all, st'.store) && SameStack(all, pushed, st'.stack)
    ensures objs < all && fresh(all[|objs|..])
  {
    var parent := stack[|stack| - 1].obj;
    ghost var p := PopTo(st.stack, indent)[|stack| - 1].id;
    var child := new YamlObject();
    all := objs + [child];
    ghost var grown := st.store[p := Put(st.store[p], key, Ref(|st.store|))] + [[]];
    assert forall i :: 0 <= i < |objs| ==> SameEntries(objs, objs[i].entries, st.store[i]);
    forall i | 0 <= i < |objs|
      ensures SameEntries(all, objs[i].entries, st.store[i])
    {
      MoreObjects(objs, child, objs[i].entries, st.store[i]);
    }
    PutMirrors(all, parent.entries, st.store[p], key, Child(child), Ref(|st.store|));
    parent.Set(key, Child(child));
    pushed := stack + [OpenObject(child, indent)];
    forall i | 0 <= i < |all|
      ensures SameEntries(all, all[i].entries, grown[i])
    {
    }
  }

  /** A key with a value. */
  method SetScalar(key: string, value: string, indent: int, stack: seq<OpenObject>, ghost objs: seq<YamlObject>,
                   ghost st: State, accepts: string -> bool)
    requires Valid(st) && Mirrors(objs, st.store) && SameStack(objs, stack, PopTo(st.stack, indent))
    requires value != []
    modifies stack[|stack| - 1].obj
    ensures Mirrors(objs, Assign(st, indent, key, value, accepts).store)
  {
    var parent := stack[|stack| - 1].obj;
    ghost var p := PopTo(st.stack, indent)[|stack| - 1].id;
    var parsed := ParseValue(value, accepts);
    PutMirrors(objs, parent.entries, st.store[p], key, Scalar(parsed), Leaf(parsed));
    parent.Set(key, Scalar(parsed));
  }

  /** The body of the loop, for one line. */
  method ReadOneLine(line: string, stack: seq<OpenObject>, ghost objs: seq<YamlObject>, ghost st: State,
                     accepts: string -> bool)
    returns (left: seq<OpenObject>, ghost all: seq<YamlObject>)
    requires Valid(st) && Mirrors(objs, st.store) && SameStack(objs, stack, st.stack)
    modifies objs
    ensures var st' := Step(st, line, accepts); Mirrors(all, st'.store) && SameStack(all, left, st'.stack)
    ensures objs <= all && fresh(all[|objs|..])
  {
    left, all := stack, objs;
    if IsSkipped(line) {
      return;
    }
    var indent := Indent(line);
    var trimmed := Trim(line);
    left := PopClosed(stack, indent, objs, st.stack);
    var colon := IndexOf(trimmed, ':');
    if colon.Some? {
      var key := Trim(trimmed[..colon.value]);
      var value := Trim(trimmed[colon.value + 1..]);
      if value == [] {
        left, all := OpenChild(key, indent, left, objs, st, accepts);
      } else {
        SetScalar(key, value, indent, left, objs, st, accepts);
      }
    }
  }

  /** Builds the object graph that the reader above says the text stands for; so for every tree, written out
      in any of those ways, the object returned stands for that tree. */
  method YamlToJson(yaml: string, accepts: string -> bool) returns (result: YamlObject, ghost objs: seq<YamlObject>)
    ensures objs != [] && result == objs[0] && fresh(objs)
    ensures Denotes(objs, Child(result), Read(yaml, accepts))
    ensures forall lines, es, indent :: IsText(yaml, lines, es, indent, accepts) ==>
              Denotes(objs, Child(result), Object(es))
  {
    var lines := Split(yaml, '\n');
    result := new YamlObject();
    var stack := [OpenObject(result, -1)];
    objs := [result];
    ghost var st := EMPTY;
    for n := 0 to |lines|
      invariant objs != [] && objs[0] == result && fresh(objs)
      invariant st == Steps(EMPTY, lines[..n], accepts)
      invariant Valid(st) && Mirrors(objs, st.store) && SameStack(objs, stack, st.stack)
    {
      OneMoreLine(lines, n, accepts);
      StepIsValid(st, lines[n], accepts);
      ghost var created;
      stack, created := ReadOneLine(lines[n], stack, objs, st, accepts);
      st := Step(st, lines[n], accepts);
      assert created == objs + created[|objs|..];
      objs := created;
    }
    assert lines[..|lines|] == lines;
    MirrorsDenotes(objs, st.store, 0);
    forall written, es, indent | IsText(yaml, written, es, indent, accepts)
      ensures Read(yaml, accepts) == Object(es)
    {
      ReadUndoesWrite(written, es, indent, accepts);
    }
  }
}
