/** Our handlers in a person's hooks map: putting them in, again, and taking them out. */
module HookGroups {
  import opened Prelude

  /** A JSON value; an object keeps its keys in order. Numbers are kept as they are written. */
  datatype Json =
    | Null
    | Bool(b: bool)
    | Num(text: string)
    | Str(s: string)
    | Arr(items: seq<Json>)
    | Obj(fields: seq<Field>)


  datatype Field = Field(key: string, value: Json)

  const HOOKS := "hooks"
  const COMMAND := "command"

  // ---------------------------------------------------------------- objects

  predicate Has(fields: seq<Field>, key: string) {
    exists k :: 0 <= k < |fields| && fields[k].key == key
  }

  function Get(fields: seq<Field>, key: string): Option<Json> {
    if fields == [] then None
    else if fields[0].key == key then Some(fields[0].value)
    else Get(fields[1..], key)
  }

  /** The value under key, in its place; at the end when there is none yet. */
  function Set(fields: seq<Field>, key: string, value: Json): seq<Field> {
    if fields == [] then [Field(key, value)]
    else if fields[0].key == key then [Field(key, value)] + fields[1..]
    else [fields[0]] + Set(fields[1..], key, value)
  }

  function Del(fields: seq<Field>, key: string): seq<Field> {
    if fields == [] then []
    else if fields[0].key == key then fields[1..]
    else [fields[0]] + Del(fields[1..], key)
  }

  predicate Distinct(fields: seq<Field>) {
    forall j, k :: 0 <= j < k < |fields| ==> fields[j].key != fields[k].key
  }

  lemma {:induction false} GetHas(fields: seq<Field>, key: string)
    ensures Get(fields, key).Some? <==> Has(fields, key)
    ensures forall k :: 0 <= k < |fields| && Distinct(fields) && fields[k].key == key
              ==> Get(fields, key) == Some(fields[k].value)
  {
    if fields != [] {
      GetHas(fields[1..], key);
      if fields[0].key == key {
        assert fields[0].key == key;
      } else if Has(fields, key) {
        var k :| 0 <= k < |fields| && fields[k].key == key;
        assert fields[1..][k - 1].key == key;
      }
      if Has(fields[1..], key) {
        var k :| 0 <= k < |fields| - 1 && fields[1..][k].key == key;
        assert fields[k + 1].key == key;
      }
      forall k | 0 <= k < |fields| && Distinct(fields) && fields[k].key == key
        ensures Get(fields, key) == Some(fields[k].value)
      {
        if k > 0 { assert fields[1..][k - 1] == fields[k]; }
      }
    }
  }

  lemma {:induction false} GetSet(fields: seq<Field>, key: string, value: Json, other: string)
    ensures Get(Set(fields, key, value), other) == if other == key then Some(value) else Get(fields, other)
    ensures Get(fields, key) == Some(value) ==> Set(fields, key, value) == fields
  {
    if fields != [] {
      GetSet(fields[1..], key, value, other);
      assert fields == [fields[0]] + fields[1..];
    }
  }

  // ---------------------------------------------------------------- whose a handler is

  type Ours = string -> bool

  function Command(h: Json): string {
    if h.Obj? then
      match Get(h.fields, COMMAND)
      case Some(Str(s)) => s
      case _ => ""
    else ""
  }

  predicate Mine(ours: Ours, h: Json) {
    h.Obj? && Command(h) != "" && ours(Command(h))
  }

  /** The handlers of a group, when it has a list of them. */
  function Inner(g: Json): Option<seq<Json>> {
    if g.Obj? then
      match Get(g.fields, HOOKS)
      case Some(Arr(items)) => Some(items)
      case _ => None
    else None
  }

  function MineOf(ours: Ours, items: seq<Json>): nat {
    if items == [] then 0 else MineOf(ours, items[..|items| - 1]) + if Mine(ours, items[|items| - 1]) then 1 else 0
  }

  function Left(ours: Ours, items: seq<Json>): seq<Json> {
    if items == [] then []
    else
      var last := items[|items| - 1];
      Left(ours, items[..|items| - 1]) + if Mine(ours, last) then [] else [last]
  }

  /** A group that is itself a handler of ours, with nothing under "hooks". */
  predicate Flat(ours: Ours, g: Json) {
    g.Obj? && Get(g.fields, HOOKS) == None && Mine(ours, g)
  }

  /** A group that is a handler of ours but for something else than a list under "hooks": it goes when any
      of ours goes from its event, and is not counted among ours. */
  predicate Odd(ours: Ours, g: Json) {
    g.Obj? && Get(g.fields, HOOKS) != None && Inner(g) == None && Mine(ours, g)
  }

  function InGroup(ours: Ours, g: Json): nat {
    if Inner(g).Some? then MineOf(ours, Inner(g).value) else if Flat(ours, g) then 1 else 0
  }

  function Count(ours: Ours, list: seq<Json>): nat {
    if list == [] then 0 else Count(ours, list[..|list| - 1]) + InGroup(ours, list[|list| - 1])
  }

  /** The last group a handler of ours was seen in; none when it was a group of its own. */
  function LastIn(ours: Ours, list: seq<Json>): Option<Json> {
    if list == [] then None
    else
      var g := list[|list| - 1];
      if Inner(g).Some? && MineOf(ours, Inner(g).value) > 0 then Some(g)
      else if Flat(ours, g) then None
      else LastIn(ours, list[..|list| - 1])
  }

  // ---------------------------------------------------------------- merging

  /** What is left of a group once ours are gone from it: nothing, when nothing else was in it. */
  function Stripped(ours: Ours, g: Json): seq<Json> {
    if !g.Obj? then [g]
    else if Inner(g) == None then if Mine(ours, g) then [] else [g]
    else
      var left := Left(ours, Inner(g).value);
      if left == [] then [] else [Obj(Set(g.fields, HOOKS, Arr(left)))]
  }

  function StrippedList(ours: Ours, list: seq<Json>): seq<Json> {
    if list == [] then [] else StrippedList(ours, list[..|list| - 1]) + Stripped(ours, list[|list| - 1])
  }

  /** An event's one handler of ours is already exactly the one wanted. */
  predicate Settled(ours: Ours, want: seq<Field>, f: Field) {
    && f.value.Arr? && Has(want, f.key)
    && Count(ours, f.value.items) == 1 && LastIn(ours, f.value.items) == Get(want, f.key)
  }

  function StrippedField(ours: Ours, want: seq<Field>, f: Field): seq<Field> {
    if !f.value.Arr? || Settled(ours, want, f) || Count(ours, f.value.items) == 0 then [f]
    else if StrippedList(ours, f.value.items) == [] then []
    else [f.(value := Arr(StrippedList(ours, f.value.items)))]
  }

  function StrippedFields(ours: Ours, want: seq<Field>, hooks: seq<Field>): seq<Field> {
    if hooks == [] then [] else StrippedField(ours, want, hooks[0]) + StrippedFields(ours, want, hooks[1..])
  }

  predicate IsSettled(ours: Ours, want: seq<Field>, hooks: seq<Field>, event: string) {
    exists k :: 0 <= k < |hooks| && hooks[k].key == event && Settled(ours, want, hooks[k])
  }

  /** A wanted group put last in its event, unless something else than a list is there. */
  function Added(fields: seq<Field>, w: Field): seq<Field> {
    match Get(fields, w.key)
    case None => Set(fields, w.key, Arr([w.value]))
    case Some(Arr(list)) => Set(fields, w.key, Arr(list + [w.value]))
    case Some(_) => fields
  }

  function AddedAll(ours: Ours, want: seq<Field>, hooks: seq<Field>, fields: seq<Field>, order: seq<Field>): seq<Field>
  {
    if order == [] then fields
    else
      var rest := order[..|order| - 1];
      var w := order[|order| - 1];
      var before := AddedAll(ours, want, hooks, fields, rest);
      if IsSettled(ours, want, hooks, w.key) then before else Added(before, w)
  }

  /** The last value under key. */
  function LastOf(fields: seq<Field>, key: string): Option<Json> {
    if fields == [] then None
    else if fields[|fields| - 1].key == key then Some(fields[|fields| - 1].value)
    else LastOf(fields[..|fields| - 1], key)
  }

  /** A list that names an event twice wants its last group there, and wants it twice. */
  function Latest(want: seq<Field>): seq<Field> {
    seq(|want|, k requires 0 <= k < |want| =>
      match LastOf(want, want[k].key) case Some(group) => Field(want[k].key, group) case None => want[k])
  }

  lemma {:induction false} LastOfDistinct(fields: seq<Field>, k: nat)
    requires Distinct(fields) && k < |fields|
    ensures LastOf(fields, fields[k].key) == Some(fields[k].value)
  {
    if k < |fields| - 1 {
      LastOfDistinct(fields[..|fields| - 1], k);
    }
  }

  lemma LatestOfDistinct(want: seq<Field>)
    requires Distinct(want)
    ensures Latest(want) == want
  {
    forall k | 0 <= k < |want| ensures Latest(want)[k] == want[k] {
      LastOfDistinct(want, k);
    }
  }

  /** want holds one group for each event it names. */
  function Merge(ours: Ours, want: seq<Field>, hooks: seq<Field>): seq<Field> {
    AddedAll(ours, want, hooks, StrippedFields(ours, want, hooks), want)
  }

  /** A group of one handler, which is recognised as ours. */
  predicate Recognised(ours: Ours, g: Json) {
    g.Obj? && Inner(g).Some? && |Inner(g).value| == 1 && Mine(ours, Inner(g).value[0])
  }

  predicate AllRecognised(ours: Ours, want: seq<Field>) {
    Distinct(want) && forall k :: 0 <= k < |want| ==> Recognised(ours, want[k].value)
  }

  // ---------------------------------------------------------------- stripping a list

  lemma LeftNext(ours: Ours, items: seq<Json>, h: Json)
    ensures Left(ours, items + [h]) == if Mine(ours, h) then Left(ours, items) else Left(ours, items) + [h]
    ensures MineOf(ours, items + [h]) == MineOf(ours, items) + if Mine(ours, h) then 1 else 0
  {
    hide Mine;
    assert (items + [h])[..|items|] == items;
  }

  lemma {:induction false} LeftIsForeign(ours: Ours, items: seq<Json>)
    ensures MineOf(ours, Left(ours, items)) == 0 && Left(ours, Left(ours, items)) == Left(ours, items)
    ensures MineOf(ours, items) == 0 ==> Left(ours, items) == items
    ensures |items| == MineOf(ours, items) + |Left(ours, items)|
    decreases |items|
  {
    hide Mine;
    if items != [] {
      var less, last := items[..|items| - 1], items[|items| - 1];
      assert items == less + [last];
      LeftIsForeign(ours, less);
      LeftNext(ours, less, last);
      LeftNext(ours, Left(ours, less), last);
    }
  }

  /** A stripped group holds none of ours, and is neither hollow nor odd. */
  lemma StrippedIsClean(ours: Ours, g: Json, k: nat)
    requires k < |Stripped(ours, g)|
    ensures var g' := Stripped(ours, g)[k]; InGroup(ours, g') == 0 && Inner(g') != Some([]) && !Odd(ours, g')
  {
    if g.Obj? && Inner(g).Some? {
      var left := Left(ours, Inner(g).value);
      LeftIsForeign(ours, Inner(g).value);
      GetSet(g.fields, HOOKS, Arr(left), HOOKS);
    }
  }

  lemma {:induction false} CountAppend(ours: Ours, a: seq<Json>, b: seq<Json>)
    ensures Count(ours, a + b) == Count(ours, a) + Count(ours, b)
    decreases |b|
  {
    hide InGroup;
    if b == [] {
      assert a + b == a;
    } else {
      assert (a + b)[..|a + b| - 1] == a + b[..|b| - 1];
      CountAppend(ours, a, b[..|b| - 1]);
    }
  }

  lemma {:induction false} CountNone(ours: Ours, list: seq<Json>)
    ensures Count(ours, list) == 0 <==> forall k :: 0 <= k < |list| ==> InGroup(ours, list[k]) == 0
  {
    hide InGroup;
    if list != [] {
      CountNone(ours, list[..|list| - 1]);
    }
  }

  lemma {:induction false} StrippedListIsClean(ours: Ours, list: seq<Json>)
    ensures var l := StrippedList(ours, list);
            Count(ours, l) == 0 && forall k :: 0 <= k < |l| ==> Inner(l[k]) != Some([]) && !Odd(ours, l[k])
  {
    hide InGroup, Stripped, Odd;
    if list != [] {
      var last := list[|list| - 1];
      StrippedListIsClean(ours, list[..|list| - 1]);
      forall k: nat | k < |Stripped(ours, last)| ensures InGroup(ours, Stripped(ours, last)[k]) == 0
        && Inner(Stripped(ours, last)[k]) != Some([]) && !Odd(ours, Stripped(ours, last)[k])
      {
        StrippedIsClean(ours, last, k);
      }
      CountNone(ours, Stripped(ours, last));
      CountAppend(ours, StrippedList(ours, list[..|list| - 1]), Stripped(ours, last));
    }
  }

  /** A group that holds none of ours, and is neither hollow nor odd, is left as it is. */
  predicate Plain(ours: Ours, g: Json) {
    InGroup(ours, g) == 0 && Inner(g) != Some([]) && !Odd(ours, g)
  }

  lemma PlainStays(ours: Ours, g: Json)
    requires Plain(ours, g)
    ensures Stripped(ours, g) == [g]
  {
    if g.Obj? && Inner(g).Some? {
      var items := Inner(g).value;
      LeftIsForeign(ours, items);
      GetSet(g.fields, HOOKS, Arr(items), HOOKS);
    }
  }

  lemma {:induction false} StrippedSame(ours: Ours, list: seq<Json>)
    requires forall k :: 0 <= k < |list| ==> Plain(ours, list[k])
    ensures StrippedList(ours, list) == list
  {
    hide Plain, Stripped;
    if list != [] {
      StrippedSame(ours, list[..|list| - 1]);
      PlainStays(ours, list[|list| - 1]);
      assert list == list[..|list| - 1] + [list[|list| - 1]];
    }
  }

  /** Our group put last in a list with none of ours: it is the one handler of ours there, and stripping
      takes it out again. */
  lemma WantedLast(ours: Ours, list: seq<Json>, w: Json)
    requires Recognised(ours, w) && Count(ours, list) == 0
    ensures Count(ours, list + [w]) == 1 && LastIn(ours, list + [w]) == Some(w)
    ensures StrippedList(ours, list + [w]) == StrippedList(ours, list)
  {
    var inner := Inner(w).value;
    assert inner[..|inner| - 1] == [] && MineOf(ours, inner) == 1 && Left(ours, inner) == [];
    assert (list + [w])[..|list|] == list;
  }

  // ---------------------------------------------------------------- one event at a time

  /** What merging makes of one event's value. */
  function Outcome(ours: Ours, w: Option<Json>, v: Option<Json>): Option<Json> {
    match v
    case None => if w == None then None else Some(Arr([w.value]))
    case Some(Arr(list)) =>
      if w.Some? && Count(ours, list) == 1 && LastIn(ours, list) == w then v
      else
        var rest := if Count(ours, list) == 0 then list else StrippedList(ours, list);
        if w.Some? then Some(Arr(rest + [w.value]))
        else if Count(ours, list) > 0 && rest == [] then None
        else Some(Arr(rest))
    case Some(_) => v
  }

  lemma HasRest(fields: seq<Field>, key: string)
    ensures fields != [] && Has(fields[1..], key) ==> Has(fields, key)
  {
    if fields != [] && Has(fields[1..], key) {
      var j :| 0 <= j < |fields| - 1 && fields[1..][j].key == key;
      assert fields[j + 1].key == key;
    }
  }

  lemma {:induction false} StrippedKeys(ours: Ours, want: seq<Field>, hooks: seq<Field>)
    requires Distinct(hooks)
    ensures Distinct(StrippedFields(ours, want, hooks))
    ensures forall e :: Has(StrippedFields(ours, want, hooks), e) ==> Has(hooks, e)
  {
    hide Settled, StrippedList, Count, Has;
    if hooks != [] {
      var head, rest := StrippedField(ours, want, hooks[0]), StrippedFields(ours, want, hooks[1..]);
      StrippedKeys(ours, want, hooks[1..]);
      forall e | Has(head + rest, e) ensures Has(hooks, e) {
        HasRest(hooks, e);
        HasHead(hooks, e);
        HasEither(head, rest, e);
      }
      NotAgain(hooks, hooks[0].key);
      DistinctJoin(head, rest);
    }
  }

  lemma HasHead(fields: seq<Field>, e: string)
    ensures fields != [] && fields[0].key == e ==> Has(fields, e)
  {
  }

  lemma HasEither(a: seq<Field>, b: seq<Field>, e: string)
    requires |a| <= 1 && Has(a + b, e)
    ensures (a != [] && a[0].key == e) || Has(b, e)
  {
    var k :| 0 <= k < |a + b| && (a + b)[k].key == e;
    if k >= |a| {
      assert b[k - |a|].key == e;
    }
  }

  lemma DistinctJoin(a: seq<Field>, b: seq<Field>)
    requires |a| <= 1 && Distinct(b) && (a != [] ==> !Has(b, a[0].key))
    ensures Distinct(a + b)
  {
  }

  lemma {:induction false} StrippedGet(ours: Ours, want: seq<Field>, hooks: seq<Field>, e: string)
    requires Distinct(hooks)
    ensures Get(StrippedFields(ours, want, hooks), e)
            == match Get(hooks, e)
               case None => None
               case Some(v) =>
                 var f := StrippedField(ours, want, Field(e, v));
                 if f == [] then None else Some(f[0].value)
  {
    hide Settled, StrippedList, Count;
    if hooks != [] {
      StrippedGet(ours, want, hooks[1..], e);
      StrippedKeys(ours, want, hooks[1..]);
      var head, rest := StrippedField(ours, want, hooks[0]), StrippedFields(ours, want, hooks[1..]);
      if hooks[0].key == e {
        GetHas(hooks[1..], e);
        assert !Has(hooks[1..], e) by { NotAgain(hooks, e); }
      }
      if head == [] { assert head + rest == rest; } else { assert (head + rest)[1..] == rest; }
    }
  }

  lemma NotAgain(fields: seq<Field>, e: string)
    requires Distinct(fields) && fields != [] && fields[0].key == e
    ensures !Has(fields[1..], e)
  {
    forall k | 0 <= k < |fields[1..]| ensures fields[1..][k].key != e {
      assert fields[1..][k] == fields[k + 1];
    }
  }

  lemma {:induction false} SetKeys(fields: seq<Field>, key: string, value: Json)
    requires Distinct(fields)
    ensures Distinct(Set(fields, key, value))
    ensures forall e :: Has(Set(fields, key, value), e) ==> e == key || Has(fields, e)
  {
    hide Has, Distinct;
    if fields == [] {
      OneField(key, value);
    } else {
      var head, rest := fields[0], fields[1..];
      NotAgain(fields, head.key);
      DistinctRest(fields);
      if head.key == key {
        SetFirst(rest, key, value);
      } else {
        SetKeys(rest, key, value);
        DistinctJoin([head], Set(rest, key, value));
      }
      forall e | Has(Set(fields, key, value), e) ensures e == key || Has(fields, e) {
        HasHead(fields, e);
        HasRest(fields, e);
        var here := head.key == key;
        HasEither([if here then Field(key, value) else head], if here then rest else Set(rest, key, value), e);
      }
    }
  }

  lemma OneField(key: string, value: Json)
    ensures Distinct([Field(key, value)]) && forall e :: Has([Field(key, value)], e) ==> e == key
  {
  }

  lemma DistinctRest(fields: seq<Field>)
    requires Distinct(fields) && fields != []
    ensures Distinct(fields[1..])
  {
  }

  lemma SetFirst(rest: seq<Field>, key: string, value: Json)
    requires Distinct(rest) && !Has(rest, key)
    ensures Distinct([Field(key, value)] + rest)
  {
    hide Has;
    DistinctJoin([Field(key, value)], rest);
  }

  lemma AddedGet(fields: seq<Field>, w: Field, e: string)
    ensures Get(Added(fields, w), e)
            == if e != w.key then Get(fields, e)
               else match Get(fields, e)
                    case None => Some(Arr([w.value]))
                    case Some(Arr(list)) => Some(Arr(list + [w.value]))
                    case Some(_) => Get(fields, e)
  {
    match Get(fields, w.key)
    case None => GetSet(fields, w.key, Arr([w.value]), e);
    case Some(Arr(list)) => GetSet(fields, w.key, Arr(list + [w.value]), e);
    case Some(_) =>
  }

  lemma AddedKeys(fields: seq<Field>, w: Field)
    requires Distinct(fields)
    ensures Distinct(Added(fields, w))
  {
    match Get(fields, w.key)
    case None => SetKeys(fields, w.key, Arr([w.value]));
    case Some(Arr(list)) => SetKeys(fields, w.key, Arr(list + [w.value]));
    case Some(_) =>
  }

  lemma {:induction false} AddedAllGet(ours: Ours, want: seq<Field>, hooks: seq<Field>, fields: seq<Field>,
                                       order: seq<Field>, e: string)
    requires Distinct(order) && Distinct(fields)
    ensures Distinct(AddedAll(ours, want, hooks, fields, order))
    ensures Get(AddedAll(ours, want, hooks, fields, order), e)
            == if Get(order, e) == None || IsSettled(ours, want, hooks, e) then Get(fields, e)
               else Get(Added(fields, Field(e, Get(order, e).value)), e)
    decreases |order|
  {
    hide IsSettled, Added;
    if order != [] {
      var rest, w := order[..|order| - 1], order[|order| - 1];
      var before := AddedAll(ours, want, hooks, fields, rest);
      AddedAllGet(ours, want, hooks, fields, rest, e);
      AddedKeys(before, w);
      AddedGet(before, w, e);
      GetLast(order, e);
      if e == w.key {
        AddedGet(fields, w, e);
      }
    }
  }

  lemma {:induction false} GetLast(order: seq<Field>, e: string)
    requires Distinct(order) && order != []
    ensures Get(order, e)
            == if order[|order| - 1].key == e then Some(order[|order| - 1].value) else Get(order[..|order| - 1], e)
    ensures order[|order| - 1].key == e ==> Get(order[..|order| - 1], e) == None
  {
    if |order| > 1 {
      GetLast(order[1..], e);
      assert order[1..][..|order| - 2] == order[..|order| - 1][1..];
    }
  }

  lemma SettledAt(ours: Ours, want: seq<Field>, hooks: seq<Field>, e: string)
    requires Distinct(hooks)
    ensures IsSettled(ours, want, hooks, e)
            <==> Get(hooks, e).Some? && Settled(ours, want, Field(e, Get(hooks, e).value))
  {
    hide Settled;
    GetHas(hooks, e);
    if Get(hooks, e).Some? {
      var k :| 0 <= k < |hooks| && hooks[k].key == e;
      assert hooks[k] == Field(e, Get(hooks, e).value);
    }
  }

  /** Merging, one event at a time. */
  lemma MergeGet(ours: Ours, want: seq<Field>, hooks: seq<Field>, e: string)
    requires Distinct(want) && Distinct(hooks)
    ensures Distinct(Merge(ours, want, hooks))
    ensures Get(Merge(ours, want, hooks), e) == Outcome(ours, Get(want, e), Get(hooks, e))
  {
    hide Distinct, Count, LastIn, StrippedList, IsSettled;
    StrippedKeys(ours, want, hooks);
    StrippedGet(ours, want, hooks, e);
    var fields := StrippedFields(ours, want, hooks);
    AddedAllGet(ours, want, hooks, fields, want, e);
    SettledAt(ours, want, hooks, e);
    GetHas(want, e);
    if Get(want, e).Some? {
      AddedGet(fields, Field(e, Get(want, e).value), e);
      assert [] + [Get(want, e).value] == [Get(want, e).value];
    }
  }

  // ---------------------------------------------------------------- the results

  lemma {:induction false} SameFields(ours: Ours, want: seq<Field>, hooks: seq<Field>)
    requires forall k :: 0 <= k < |hooks| ==> StrippedField(ours, want, hooks[k]) == [hooks[k]]
    ensures StrippedFields(ours, want, hooks) == hooks
  {
    hide StrippedField;
    if hooks != [] {
      SameFields(ours, want, hooks[1..]);
    }
  }

  lemma {:induction false} NothingAdded(ours: Ours, want: seq<Field>, hooks: seq<Field>, order: seq<Field>)
    requires forall k :: 0 <= k < |order|
               ==> IsSettled(ours, want, hooks, order[k].key) || Added(hooks, order[k]) == hooks
    ensures AddedAll(ours, want, hooks, hooks, order) == hooks
  {
    hide IsSettled, Added;
    if order != [] {
      NothingAdded(ours, want, hooks, order[..|order| - 1]);
    }
  }

  /** What is stripped, or had none of ours, holds none of ours. */
  function Cleared(ours: Ours, v: Option<Json>): seq<Json> {
    match v
    case Some(Arr(list)) => if Count(ours, list) == 0 then list else StrippedList(ours, list)
    case _ => []
  }

  lemma ClearedHoldsNone(ours: Ours, v: Option<Json>)
    ensures Count(ours, Cleared(ours, v)) == 0
  {
    hide InGroup;
    match v
    case Some(Arr(list)) => StrippedListIsClean(ours, list);
    case _ =>
  }

  /** A wanted event ends up settled, or is no list. */
  lemma WantedOutcome(ours: Ours, w: Json, v: Option<Json>)
    requires Recognised(ours, w)
    ensures var o := Outcome(ours, Some(w), v);
            o.Some? && (o.value.Arr? ==> Count(ours, o.value.items) == 1 && LastIn(ours, o.value.items) == Some(w))
  {
    hide Recognised, Count, LastIn, StrippedList;
    ClearedHoldsNone(ours, v);
    WantedLast(ours, Cleared(ours, v), w);
    assert v == None ==> Cleared(ours, v) + [w] == [w];
  }

  /** Any other event ends up with none of ours. */
  lemma UnwantedOutcome(ours: Ours, v: Option<Json>)
    ensures var o := Outcome(ours, None, v); o.Some? && o.value.Arr? ==> Count(ours, o.value.items) == 0
  {
    hide Count, LastIn, StrippedList;
    ClearedHoldsNone(ours, v);
  }

  /** An event as merging leaves it: nothing to take out of it, and ours in it if it is to be there. */
  lemma OutcomeIsFinal(ours: Ours, want: seq<Field>, hooks: seq<Field>, e: string)
    requires AllRecognised(ours, want) && Distinct(hooks) && Get(Merge(ours, want, hooks), e).Some?
    ensures var f := Field(e, Get(Merge(ours, want, hooks), e).value);
            && StrippedField(ours, want, f) == [f]
            && (Has(want, e) && f.value.Arr? ==> Settled(ours, want, f))
  {
    hide Merge, Outcome, Count, LastIn, StrippedList, Recognised;
    MergeGet(ours, want, hooks, e);
    GetHas(want, e);
    if Has(want, e) {
      var k :| 0 <= k < |want| && want[k].key == e;
      WantedOutcome(ours, want[k].value, Get(hooks, e));
    } else {
      UnwantedOutcome(ours, Get(hooks, e));
    }
  }

  /** A second run changes nothing. */
  lemma MergeTwice(ours: Ours, want: seq<Field>, hooks: seq<Field>)
    requires AllRecognised(ours, want) && Distinct(hooks)
    ensures Merge(ours, want, Merge(ours, want, hooks)) == Merge(ours, want, hooks)
  {
    hide Recognised, Settled, StrippedField, Outcome;
    var m := Merge(ours, want, hooks);
    MergeGet(ours, want, hooks, "");
    forall k | 0 <= k < |m| ensures StrippedField(ours, want, m[k]) == [m[k]] {
      GetHas(m, m[k].key);
      OutcomeIsFinal(ours, want, hooks, m[k].key);
    }
    SameFields(ours, want, m);
    forall k | 0 <= k < |want| ensures IsSettled(ours, want, m, want[k].key) || Added(m, want[k]) == m {
      WantedIsThere(ours, want, hooks, k);
    }
    NothingAdded(ours, want, m, want);
  }

  lemma WantedIsThere(ours: Ours, want: seq<Field>, hooks: seq<Field>, k: nat)
    requires AllRecognised(ours, want) && Distinct(hooks) && k < |want|
    ensures var m := Merge(ours, want, hooks); IsSettled(ours, want, m, want[k].key) || Added(m, want[k]) == m
  {
    hide Recognised, Settled, Merge, IsSettled;
    var e := want[k].key;
    MergeGet(ours, want, hooks, e);
    GetHas(want, e);
    OutcomeIsFinal(ours, want, hooks, e);
    SettledAt(ours, want, Merge(ours, want, hooks), e);
  }

  /** The handlers that are not ours in a group, each with the rest of its group around it. */
  function Around(g: Json, items: seq<Json>): seq<(Json, Json)>
    requires g.Obj?
  {
    seq(|items|, k requires 0 <= k < |items| => (Obj(Set(g.fields, HOOKS, Null)), items[k]))
  }

  function ForeignOf(ours: Ours, g: Json): seq<(Json, Json)> {
    if g.Obj? && Inner(g).Some? then Around(g, Left(ours, Inner(g).value))
    else if Mine(ours, g) then [] else [(g, Null)]
  }

  function Foreign(ours: Ours, list: seq<Json>): seq<(Json, Json)> {
    if list == [] then [] else Foreign(ours, list[..|list| - 1]) + ForeignOf(ours, list[|list| - 1])
  }

  lemma {:induction false} SetSet(fields: seq<Field>, key: string, a: Json, b: Json)
    ensures Set(Set(fields, key, a), key, b) == Set(fields, key, b)
  {
    if fields != [] && fields[0].key != key {
      SetSet(fields[1..], key, a, b);
    }
  }

  lemma ForeignOne(ours: Ours, g: Json)
    ensures Foreign(ours, [g]) == ForeignOf(ours, g) && Foreign(ours, []) == []
  {
    hide ForeignOf;
    assert [g][..0] == [] && Foreign(ours, [g]) == [] + ForeignOf(ours, g);
  }

  lemma StrippedKeepsForeign(ours: Ours, g: Json)
    ensures Foreign(ours, Stripped(ours, g)) == ForeignOf(ours, g)
  {
    hide Foreign, Left, Set;
    var s := Stripped(ours, g);
    ForeignOne(ours, if s == [] then g else s[0]);
    if g.Obj? && Inner(g).Some? {
      var left := Left(ours, Inner(g).value);
      LeftIsForeign(ours, Inner(g).value);
      GetSet(g.fields, HOOKS, Arr(left), HOOKS);
      SetSet(g.fields, HOOKS, Arr(left), Null);
    }
  }

  lemma {:induction false} ForeignAppend(ours: Ours, a: seq<Json>, b: seq<Json>)
    ensures Foreign(ours, a + b) == Foreign(ours, a) + Foreign(ours, b)
    decreases |b|
  {
    hide ForeignOf;
    if b == [] {
      assert a + b == a;
    } else {
      assert (a + b)[..|a + b| - 1] == a + b[..|b| - 1];
      ForeignAppend(ours, a, b[..|b| - 1]);
    }
  }

  lemma {:induction false} StrippedListKeepsForeign(ours: Ours, list: seq<Json>)
    ensures Foreign(ours, StrippedList(ours, list)) == Foreign(ours, list)
  {
    hide ForeignOf, Stripped;
    if list != [] {
      StrippedListKeepsForeign(ours, list[..|list| - 1]);
      StrippedKeepsForeign(ours, list[|list| - 1]);
      ForeignAppend(ours, StrippedList(ours, list[..|list| - 1]), Stripped(ours, list[|list| - 1]));
    }
  }

  function ForeignAt(ours: Ours, fields: seq<Field>, e: string): seq<(Json, Json)> {
    match Get(fields, e)
    case Some(Arr(list)) => Foreign(ours, list)
    case _ => []
  }

  /** Every handler that is not ours stays, in order, in the group it was in; and what is not a list stays
      as it is. */
  lemma MergeKeepsForeign(ours: Ours, want: seq<Field>, hooks: seq<Field>, e: string)
    requires AllRecognised(ours, want) && Distinct(hooks)
    ensures ForeignAt(ours, Merge(ours, want, hooks), e) == ForeignAt(ours, hooks, e)
    ensures Get(hooks, e).Some? && !Get(hooks, e).value.Arr? ==> Get(Merge(ours, want, hooks), e) == Get(hooks, e)
  {
    hide Merge, Foreign, Outcome, Recognised, Distinct, AllRecognised;
    assert Distinct(want) by { WantsDistinct(ours, want); }
    MergeGet(ours, want, hooks, e);
    WantedIsRecognised(ours, want, e);
    OutcomeKeepsForeign(ours, Get(want, e), Get(hooks, e));
  }

  lemma WantsDistinct(ours: Ours, want: seq<Field>)
    requires AllRecognised(ours, want)
    ensures Distinct(want)
  {
  }

  lemma WantedIsRecognised(ours: Ours, want: seq<Field>, e: string)
    requires AllRecognised(ours, want)
    ensures Get(want, e).Some? ==> Recognised(ours, Get(want, e).value)
  {
    hide Recognised;
    GetHas(want, e);
    if Has(want, e) {
      var k :| 0 <= k < |want| && want[k].key == e;
    }
  }

  lemma OutcomeKeepsForeign(ours: Ours, w: Option<Json>, v: Option<Json>)
    requires w.Some? ==> Recognised(ours, w.value)
    ensures var o := Outcome(ours, w, v);
            && (match o case Some(Arr(list)) => Foreign(ours, list) case _ => [])
               == (match v case Some(Arr(list)) => Foreign(ours, list) case _ => [])
            && (v.Some? && !v.value.Arr? ==> o == v)
  {
    hide Foreign, Count, LastIn, StrippedList, Recognised;
    ClearedKeepsForeign(ours, v);
    NoneForeign(ours);
    if w.Some? {
      RecognisedIsNotForeign(ours, w.value);
      ForeignAppend(ours, Cleared(ours, v), [w.value]);
      assert v == None ==> Cleared(ours, v) + [w.value] == [w.value];
    }
  }

  lemma ClearedKeepsForeign(ours: Ours, v: Option<Json>)
    ensures Foreign(ours, Cleared(ours, v)) == match v case Some(Arr(list)) => Foreign(ours, list) case _ => []
  {
    hide ForeignOf, Count, StrippedList;
    match v
    case Some(Arr(list)) => StrippedListKeepsForeign(ours, list);
    case _ =>
  }

  lemma NoneForeign(ours: Ours)
    ensures Foreign(ours, []) == []
  {
  }

  lemma RecognisedIsNotForeign(ours: Ours, w: Json)
    requires Recognised(ours, w)
    ensures Foreign(ours, [w]) == []
  {
    var inner := Inner(w).value;
    assert inner[..|inner| - 1] == [] && Left(ours, inner) == [];
    assert [w][..0] == [];
  }

  // ---------------------------------------------------------------- putting in and taking out

  /** Exactly what a hooks map must be for adding ours and taking them out again to leave it as it was:
      none of ours in it, and in the events ours go to no empty list, no group with an empty list of
      handlers, and no odd group. */
  predicate Clean(ours: Ours, want: seq<Field>, f: Field) {
    f.value.Arr? ==>
      && Count(ours, f.value.items) == 0
      && (Has(want, f.key)
          ==> f.value.items != [] && forall k :: 0 <= k < |f.value.items| ==> Plain(ours, f.value.items[k]))
  }

  predicate AllClean(ours: Ours, want: seq<Field>, hooks: seq<Field>) {
    forall k :: 0 <= k < |hooks| ==> Clean(ours, want, hooks[k])
  }

  lemma {:induction false} StrippedSet(ours: Ours, fields: seq<Field>, key: string, value: Json)
    requires Get(fields, key).Some?
    requires StrippedField(ours, [], Field(key, value)) == StrippedField(ours, [], Field(key, Get(fields, key).value))
    ensures StrippedFields(ours, [], Set(fields, key, value)) == StrippedFields(ours, [], fields)
  {
    hide StrippedField;
    if fields[0].key == key {
      assert fields[0] == Field(key, fields[0].value);
      assert ([Field(key, value)] + fields[1..])[1..] == fields[1..];
    } else {
      StrippedSet(ours, fields[1..], key, value);
      assert ([fields[0]] + Set(fields[1..], key, value))[1..] == Set(fields[1..], key, value);
    }
  }

  lemma {:induction false} StrippedSetNew(ours: Ours, fields: seq<Field>, key: string, value: Json)
    requires Get(fields, key) == None && StrippedField(ours, [], Field(key, value)) == []
    ensures StrippedFields(ours, [], Set(fields, key, value)) == StrippedFields(ours, [], fields)
  {
    hide StrippedField;
    if fields == [] {
      assert [Field(key, value)][1..] == [];
    } else {
      StrippedSetNew(ours, fields[1..], key, value);
      assert ([fields[0]] + Set(fields[1..], key, value))[1..] == Set(fields[1..], key, value);
    }
  }

  /** Taking out what one addition put in. */
  lemma StrippedAdded(ours: Ours, want: seq<Field>, hooks: seq<Field>, before: seq<Field>, w: Field)
    requires AllClean(ours, want, hooks) && Has(want, w.key) && Recognised(ours, w.value)
    requires Distinct(hooks) && Get(before, w.key) == Get(hooks, w.key)
    ensures StrippedFields(ours, [], Added(before, w)) == StrippedFields(ours, [], before)
  {
    hide Recognised, Plain, Count, LastIn, StrippedList;
    GetHas(hooks, w.key);
    match Get(before, w.key)
    case None =>
      WantedLast(ours, [], w.value) by { NoneCounted(ours); }
      assert [] + [w.value] == [w.value];
      NoneStripped(ours);
      StrippedSetNew(ours, before, w.key, Arr([w.value]));
    case Some(Arr(list)) =>
      var k :| 0 <= k < |hooks| && hooks[k].key == w.key;
      assert Clean(ours, want, hooks[k]) && hooks[k].value == Arr(list);
      WantedLast(ours, list, w.value);
      StrippedSame(ours, list);
      StrippedSet(ours, before, w.key, Arr(list + [w.value]));
    case Some(_) =>
  }

  lemma NoneCounted(ours: Ours)
    ensures Count(ours, []) == 0
  {
  }

  lemma NoneStripped(ours: Ours)
    ensures StrippedList(ours, []) == []
  {
  }

  lemma {:induction false} StrippedAddedAll(ours: Ours, want: seq<Field>, hooks: seq<Field>, order: seq<Field>)
    requires AllClean(ours, want, hooks) && Distinct(hooks) && Distinct(order)
    requires forall k :: 0 <= k < |order| ==> Has(want, order[k].key) && Recognised(ours, order[k].value)
    requires forall k :: 0 <= k < |order| ==> !IsSettled(ours, want, hooks, order[k].key)
    ensures StrippedFields(ours, [], AddedAll(ours, want, hooks, hooks, order)) == StrippedFields(ours, [], hooks)
  {
    hide AllClean, Has, Recognised, IsSettled;
    if order != [] {
      var rest, w := order[..|order| - 1], order[|order| - 1];
      StrippedAddedAll(ours, want, hooks, rest);
      AddedAllGet(ours, want, hooks, hooks, rest, w.key);
      GetLast(order, w.key);
      StrippedAdded(ours, want, hooks, AddedAll(ours, want, hooks, hooks, rest), w);
    }
  }

  lemma CleanIsNotSettled(ours: Ours, want: seq<Field>, hooks: seq<Field>, e: string)
    requires AllClean(ours, want, hooks)
    ensures !IsSettled(ours, want, hooks, e)
  {
    hide Plain;
    forall k | 0 <= k < |hooks| ensures !Settled(ours, want, hooks[k]) {
      assert Clean(ours, want, hooks[k]);
    }
  }

  lemma AddThenRemove(ours: Ours, want: seq<Field>, hooks: seq<Field>)
    requires AllRecognised(ours, want) && Distinct(hooks) && AllClean(ours, want, hooks)
    ensures Merge(ours, [], Merge(ours, want, hooks)) == hooks
  {
    hide Plain, Recognised, Settled, IsSettled;
    forall k | 0 <= k < |hooks|
      ensures StrippedField(ours, want, hooks[k]) == [hooks[k]] == StrippedField(ours, [], hooks[k])
    {
      assert Clean(ours, want, hooks[k]);
    }
    SameFields(ours, want, hooks);
    SameFields(ours, [], hooks);
    forall k | 0 <= k < |want| ensures Has(want, want[k].key) && !IsSettled(ours, want, hooks, want[k].key) {
      CleanIsNotSettled(ours, want, hooks, want[k].key);
    }
    StrippedAddedAll(ours, want, hooks, want);
  }

  /** If adding and removing leaves an event as it was, it was clean. */
  lemma UnchangedIsClean(ours: Ours, want: seq<Field>, hooks: seq<Field>, k: nat)
    requires AllRecognised(ours, want) && Distinct(hooks) && k < |hooks|
    requires Get(Merge(ours, [], Merge(ours, want, hooks)), hooks[k].key) == Some(hooks[k].value)
    ensures Clean(ours, want, hooks[k])
  {
    hide Merge, Recognised, Count, LastIn, StrippedList;
    var e := hooks[k].key;
    GetHas(hooks, e);
    GetHas(want, e);
    MergeGet(ours, want, hooks, e);
    MergeGet(ours, [], Merge(ours, want, hooks), e);
    var v := Get(Merge(ours, want, hooks), e);
    if hooks[k].value.Arr? && v.Some? && v.value.Arr? {
      var list := hooks[k].value.items;
      StrippedListIsClean(ours, v.value.items);
      assert Count(ours, list) == 0;
      if Has(want, e) {
        var j :| 0 <= j < |want| && want[j].key == e;
        WantedLast(ours, list, want[j].value);
        StrippedListIsClean(ours, list);
        CountNone(ours, list);
      }
    }
  }

  /** Adding ours and taking them out again is the identity exactly on clean hooks maps. */
  lemma AddThenRemoveIff(ours: Ours, want: seq<Field>, hooks: seq<Field>)
    requires AllRecognised(ours, want) && Distinct(hooks)
    ensures Merge(ours, [], Merge(ours, want, hooks)) == hooks <==> AllClean(ours, want, hooks)
  {
    hide Merge, AllRecognised, Clean;
    if AllClean(ours, want, hooks) {
      AddThenRemove(ours, want, hooks);
    }
    if Merge(ours, [], Merge(ours, want, hooks)) == hooks {
      forall k | 0 <= k < |hooks| ensures Clean(ours, want, hooks[k]) {
        GetHas(hooks, hooks[k].key);
        UnchangedIsClean(ours, want, hooks, k);
      }
    }
  }

  /** A handler is ours when it is an object whose command is a text that is ours, and not empty. */
  lemma MineExactly(ours: Ours, h: Json)
    ensures Mine(ours, h)
            <==> h.Obj? && exists text :: Get(h.fields, "command") == Some(Str(text)) && text != "" && ours(text)
  {
    if h.Obj? && Get(h.fields, COMMAND).Some? && Get(h.fields, COMMAND).value.Str? {
      assert Get(h.fields, "command") == Some(Str(Command(h)));
    }
  }

  /** The handlers of a group are the list under its "hooks"; a group fit to be wanted has one, and that is ours. */
  lemma GroupExactly(ours: Ours, g: Json)
    ensures forall items :: Inner(g) == Some(items) <==> g.Obj? && Get(g.fields, "hooks") == Some(Arr(items))
    ensures Recognised(ours, g) <==> exists h :: Inner(g) == Some([h]) && Mine(ours, h)
  {
    if Recognised(ours, g) {
      var items := Inner(g).value;
      assert items == [items[0]];
    }
  }

  /** The group the last handler of ours in a list was seen in. */
  lemma {:induction false} LastInExactly(ours: Ours, list: seq<Json>, g: Json)
    ensures LastIn(ours, list) == Some(g)
            <==> exists k :: 0 <= k < |list| && list[k] == g && LastOurs(ours, list, k)
  {
    hide MineOf, Flat, Inner;
    if list != [] {
      var less, n := list[..|list| - 1], |list| - 1;
      LastInExactly(ours, less, g);
      FlatHasNoList(ours, list[n]);
      forall k | 0 <= k < n
        ensures LastOurs(ours, list, k) <==> LastOurs(ours, less, k) && InGroup(ours, list[n]) == 0
      {
        LastOursEarlier(ours, list, k);
      }
      assert LastOurs(ours, list, n) <==> Inner(list[n]).Some? && MineOf(ours, Inner(list[n]).value) > 0;
      assert LastIn(ours, list) == if Inner(list[n]).Some? && MineOf(ours, Inner(list[n]).value) > 0 then Some(list[n])
                                   else if Flat(ours, list[n]) then None else LastIn(ours, less);
      if k :| 0 <= k < n && less[k] == g && LastOurs(ours, less, k) {
        assert list[k] == g;
      }
      if k :| 0 <= k < |list| && list[k] == g && LastOurs(ours, list, k) {
        if k < n {
          assert less[k] == g && LastOurs(ours, less, k);
        }
      }
    }
  }

  lemma FlatHasNoList(ours: Ours, g: Json)
    ensures Flat(ours, g) ==> Inner(g) == None
  {
  }

  lemma LastOursEarlier(ours: Ours, list: seq<Json>, k: nat)
    requires k < |list| - 1
    ensures LastOurs(ours, list, k)
            <==> LastOurs(ours, list[..|list| - 1], k) && InGroup(ours, list[|list| - 1]) == 0
  {
    hide MineOf, Flat, Inner, InGroup;
    var less := list[..|list| - 1];
    assert forall j :: 0 <= j < |less| ==> less[j] == list[j];
  }

  /** k's group has a handler of ours in its list, and no later group has or is one. */
  predicate LastOurs(ours: Ours, list: seq<Json>, k: nat)
    requires k < |list|
  {
    && Inner(list[k]).Some? && MineOf(ours, Inner(list[k]).value) > 0
    && forall j :: k < j < |list| ==> InGroup(ours, list[j]) == 0
  }
}
