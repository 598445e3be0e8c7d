/** A hooks map changed in place, its keys in order. */
module HookMerge {
  import opened Prelude
  import opened HookGroups

  /** A JSON object that remembers its key order. */
  class OrderedObject {
    var keys: seq<string>
    var vals: map<string, Json>

    ghost predicate Valid()
      reads this
    {
      && (forall i, j :: 0 <= i < j < |keys| ==> keys[i] != keys[j])
      && (forall k :: k in vals <==> k in keys)
    }

    ghost function Fields(): seq<Field>
      reads this
      requires Valid()
    {
      seq(|keys|, i requires 0 <= i < |keys| && Valid() reads this =>
        assert keys[i] in keys; Field(keys[i], vals[keys[i]]))
    }

    constructor ()
      ensures Valid() && Fields() == []
    {
      keys, vals := [], map[];
    }

    method SetKey(key: string, value: Json)
      requires Valid()
      modifies this
      ensures Valid() && Fields() == Set(old(Fields()), key, value)
    {
      hide Set, Has, Distinct;
      ghost var before := Fields();
      HasFields(this, key);
      if key !in vals {
        SetAtEnd(before, key, value);
        keys := keys + [key];
        vals := vals[key := value];
      } else {
        ghost var k :| 0 <= k < |keys| && keys[k] == key;
        SetInPlace(before, k, value);
        vals := vals[key := value];
      }
    }

    method DelKey(key: string)
      requires Valid()
      modifies this
      ensures Valid() && Fields() == Del(old(Fields()), key)
    {
      hide Del, Has, Distinct;
      ghost var before := Fields();
      HasFields(this, key);
      if key !in vals {
        DelNone(before, key);
        return;
      }
      var i := Place(key);
      DelInPlace(before, i);
      vals := vals - {key};
      keys := keys[..i] + keys[i + 1..];
      assert Valid() by { LessOne(old(keys), i); }
      assert Fields() == before[..i] + before[i + 1..];
    }

    method Place(key: string) returns (i: nat)
      requires key in keys
      ensures i < |keys| && keys[i] == key
    {
      i := 0;
      while keys[i] != key
        invariant i < |keys| && forall j :: 0 <= j < i ==> keys[j] != key
        decreases |keys| - i
      {
        i := i + 1;
      }
    }
  }

  lemma LessOne(keys: seq<string>, i: nat)
    requires i < |keys| && forall j, k :: 0 <= j < k < |keys| ==> keys[j] != keys[k]
    ensures var less := keys[..i] + keys[i + 1..];
            && (forall j, k :: 0 <= j < k < |less| ==> less[j] != less[k])
            && (forall x :: x in less <==> x in keys && x != keys[i])
  {
    var less := keys[..i] + keys[i + 1..];
    forall x | x in keys && x != keys[i] ensures x in less {
      var j :| 0 <= j < |keys| && keys[j] == x;
      if j < i { assert less[j] == x; } else { assert less[j - 1] == x; }
    }
  }

  lemma HasFields(o: OrderedObject, key: string)
    requires o.Valid()
    ensures Has(o.Fields(), key) <==> key in o.vals
    ensures Distinct(o.Fields())
  {
    var fields := o.Fields();
    if key in o.vals {
      var k :| 0 <= k < |o.keys| && o.keys[k] == key;
      assert fields[k].key == key;
    }
    if Has(fields, key) {
      var k :| 0 <= k < |fields| && fields[k].key == key;
      assert o.keys[k] == key;
    }
  }

  lemma {:induction false} SetAtEnd(fields: seq<Field>, key: string, value: Json)
    requires !Has(fields, key)
    ensures Set(fields, key, value) == fields + [Field(key, value)]
  {
    if fields != [] {
      HasRest(fields, key);
      SetAtEnd(fields[1..], key, value);
    }
  }

  lemma {:induction false} SetInPlace(fields: seq<Field>, k: nat, value: Json)
    requires Distinct(fields) && k < |fields|
    ensures Set(fields, fields[k].key, value) == fields[k := Field(fields[k].key, value)]
  {
    var f := Field(fields[k].key, value);
    if k == 0 {
      assert fields[0 := f] == [f] + fields[1..];
    } else {
      assert fields[0].key != fields[k].key && fields[1..][k - 1] == fields[k];
      SetInPlace(fields[1..], k - 1, value);
      assert fields[k := f] == [fields[0]] + fields[1..][k - 1 := f];
    }
  }

  lemma {:induction false} DelInPlace(fields: seq<Field>, k: nat)
    requires Distinct(fields) && k < |fields|
    ensures Del(fields, fields[k].key) == fields[..k] + fields[k + 1..]
  {
    if k > 0 {
      DelInPlace(fields[1..], k - 1);
      assert fields[..k] + fields[k + 1..] == [fields[0]] + (fields[1..][..k - 1] + fields[1..][k..]);
    }
  }

  lemma {:induction false} DelNone(fields: seq<Field>, key: string)
    requires !Has(fields, key)
    ensures Del(fields, key) == fields
  {
    if fields != [] {
      HasRest(fields, key);
      DelNone(fields[1..], key);
    }
  }

  /** How many handlers of a list are ours, and the group the last of them is in. */
  method CountOurs(ours: Ours, list: seq<Json>) returns (n: nat, within: Option<Json>)
    ensures n == Count(ours, list) && within == LastIn(ours, list)
  {
    hide Mine, Inner;
    n, within := 0, None;
    var i := 0;
    while i < |list|
      invariant 0 <= i <= |list| && n == Count(ours, list[..i]) && within == LastIn(ours, list[..i])
    {
      assert list[..i + 1][..i] == list[..i];
      var g := list[i];
      if g.Obj? {
        var inner := Inner(g);
        if inner.Some? {
          var mine := CountMine(ours, inner.value);
          n := n + mine;
          if mine > 0 {
            within := Some(g);
          }
        }
        if Get(g.fields, HOOKS) == None && Mine(ours, g) {
          InnerNeedsHooks(g);
          n := n + 1;
          within := None;
        }
      } else {
        InnerNeedsHooks(g);
      }
      i := i + 1;
    }
    assert list[..i] == list;
  }

  lemma InnerNeedsHooks(g: Json)
    ensures !g.Obj? || Get(g.fields, HOOKS) == None ==> Inner(g) == None
  {
  }

  method CountMine(ours: Ours, items: seq<Json>) returns (n: nat)
    ensures n == MineOf(ours, items)
  {
    hide Mine;
    n := 0;
    var i := 0;
    while i < |items|
      invariant 0 <= i <= |items| && n == MineOf(ours, items[..i])
    {
      assert items[..i + 1][..i] == items[..i];
      if Mine(ours, items[i]) {
        n := n + 1;
      }
      i := i + 1;
    }
    assert items[..i] == items;
  }

  method LeaveOut(ours: Ours, items: seq<Json>) returns (left: seq<Json>)
    ensures left == Left(ours, items)
  {
    hide Mine;
    left := [];
    var i := 0;
    while i < |items|
      invariant 0 <= i <= |items| && left == Left(ours, items[..i])
    {
      assert items[..i + 1][..i] == items[..i];
      if !Mine(ours, items[i]) {
        left := left + [items[i]];
      }
      i := i + 1;
    }
    assert items[..i] == items;
  }

  method StripList(ours: Ours, list: seq<Json>) returns (kept: seq<Json>)
    ensures kept == StrippedList(ours, list)
  {
    hide Mine, Inner;
    kept := [];
    var i := 0;
    while i < |list|
      invariant 0 <= i <= |list| && kept == StrippedList(ours, list[..i])
    {
      assert list[..i + 1][..i] == list[..i];
      var g := list[i];
      if !g.Obj? {
        kept := kept + [g];
      } else {
        var inner := Inner(g);
        if inner == None {
          if !Mine(ours, g) {
            kept := kept + [g];
          }
        } else {
          var left := LeaveOut(ours, inner.value);
          if left != [] {
            kept := kept + [Obj(Set(g.fields, HOOKS, Arr(left)))];
          }
        }
      }
      i := i + 1;
    }
    assert list[..i] == list;
  }

  lemma {:induction false} StrippedAppend(ours: Ours, want: seq<Field>, a: seq<Field>, b: seq<Field>)
    ensures StrippedFields(ours, want, a + b) == StrippedFields(ours, want, a) + StrippedFields(ours, want, b)
  {
    hide StrippedField;
    if a == [] {
      assert a + b == b;
    } else {
      assert (a + b)[1..] == a[1..] + b;
      StrippedAppend(ours, want, a[1..], b);
    }
  }

  /** The field in turn is the first one not yet looked at, wherever stripping has brought it. */
  lemma InTurn(ours: Ours, want: seq<Field>, hooks: seq<Field>, i: nat) returns (p: seq<Field>)
    requires Distinct(hooks) && i < |hooks|
    ensures p == StrippedFields(ours, want, hooks[..i])
    ensures Distinct(p + hooks[i..]) && (p + hooks[i..])[|p|] == hooks[i]
    ensures hooks[i..][0] == hooks[i] && hooks[i..][1..] == hooks[i + 1..]
    ensures StrippedFields(ours, want, hooks[..i + 1]) == p + StrippedField(ours, want, hooks[i])
  {
    hide StrippedField;
    p := StrippedFields(ours, want, hooks[..i]);
    StrippedKeys(ours, want, hooks[..i]);
    assert hooks[..i + 1] == hooks[..i] + [hooks[i]];
    StrippedAppend(ours, want, hooks[..i], [hooks[i]]);
    assert [hooks[i]][1..] == [] && StrippedFields(ours, want, []) == [];
    forall j, k | 0 <= j < |p| && i <= k < |hooks| ensures p[j].key != hooks[k].key {
      assert Has(p, p[j].key);
      var l :| 0 <= l < i && hooks[..i][l].key == p[j].key;
    }
  }

  lemma ReplaceInTurn(p: seq<Field>, r: seq<Field>, value: Json)
    requires Distinct(p + r) && r != []
    ensures Set(p + r, r[0].key, value) == p + [Field(r[0].key, value)] + r[1..]
    ensures Del(p + r, r[0].key) == p + r[1..]
  {
    SetInPlace(p + r, |p|, value);
    DelInPlace(p + r, |p|);
  }

  /** One event's turn: p is before it, r from it on. */
  method StripEvent(hooks: OrderedObject, event: string, want: seq<Field>, ours: Ours, ghost p: seq<Field>,
                    ghost r: seq<Field>)
      returns (settled: bool)
    requires hooks.Valid() && hooks.Fields() == p + r && r != [] && r[0].key == event
    modifies hooks
    ensures hooks.Valid() && hooks.Fields() == p + StrippedField(ours, want, r[0]) + r[1..]
    ensures settled == Settled(ours, want, r[0])
  {
    hide Settled, StrippedList, Count, LastIn;
    FieldAt(hooks, |p|);
    SettledIs(ours, want, r[0]);
    assert p + [r[0]] + r[1..] == p + r;
    var here := hooks.vals[event];
    if !here.Arr? {
      return false;
    }
    var list := here.items;
    var n, within := CountOurs(ours, list);
    var w := Get(want, event);
    if w.Some? && n == 1 && within == w {
      return true;
    }
    if n > 0 {
      var kept := StripList(ours, list);
      ReplaceInTurn(p, r, Arr(kept));
      if kept == [] {
        hooks.DelKey(event);
        assert p + [] + r[1..] == p + r[1..];
      } else {
        hooks.SetKey(event, Arr(kept));
      }
    }
    return false;
  }

  /** Every event there was, in turn; settled are those already exactly as wanted. */
  method StripAll(hooks: OrderedObject, want: seq<Field>, ours: Ours) returns (settled: set<string>)
    requires hooks.Valid()
    modifies hooks
    ensures hooks.Valid() && hooks.Fields() == StrippedFields(ours, want, old(hooks.Fields()))
    ensures forall e :: e in settled <==> IsSettled(ours, want, old(hooks.Fields()), e)
  {
    hide Settled, IsSettled, StrippedField, StrippedFields, OrderedObject.Fields, OrderedObject.Valid, Distinct;
    ghost var h := hooks.Fields();
    FieldsAreKeys(hooks);
    StrippedNone(ours, want, h);
    var events := hooks.keys;
    settled := {};
    var i := 0;
    while i < |events|
      invariant 0 <= i <= |events| == |h| && Distinct(h) && forall k :: 0 <= k < |h| ==> h[k].key == events[k]
      invariant hooks.Valid() && hooks.Fields() == StrippedFields(ours, want, h[..i]) + h[i..]
      invariant forall e :: e in settled <==> IsSettled(ours, want, h[..i], e)
    {
      SettledNext(ours, want, h, i);
      ghost var p := InTurn(ours, want, h, i);
      var here := StripEvent(hooks, events[i], want, ours, p, h[i..]);
      if here {
        settled := settled + {events[i]};
      }
      i := i + 1;
    }
    AllStripped(ours, want, h, i);
  }

  lemma AllStripped(ours: Ours, want: seq<Field>, h: seq<Field>, i: nat)
    requires i == |h|
    ensures h[..i] == h && StrippedFields(ours, want, h[..i]) + h[i..] == StrippedFields(ours, want, h)
  {
    hide StrippedField;
    assert h[..i] == h;
  }

  /** Only handlers recognised as ours go; an event settled already is left alone. Of an event named more than
      once the last group is the one wanted. */
  method MergeHookGroups(hooks: OrderedObject, want: seq<Field>, ours: Ours)
    requires hooks.Valid()
    modifies hooks
    ensures hooks.Valid() && hooks.Fields() == Merge(ours, Latest(want), old(hooks.Fields()))
    ensures Distinct(want) ==> hooks.Fields() == Merge(ours, want, old(hooks.Fields()))
  {
    hide IsSettled, StrippedFields, AddedAll, OrderedObject.Fields, Latest, Distinct;
    ghost var h := hooks.Fields();
    var latest := Wanted(want);
    if Distinct(want) { LatestOfDistinct(want); }
    var settled := StripAll(hooks, latest, ours);
    AddWanted(hooks, latest, ours, settled, h);
  }

  /** The events in the order they are named, each with the group wanted for it. */
  method Wanted(want: seq<Field>) returns (latest: seq<Field>)
    ensures latest == Latest(want)
  {
    var wanted: map<string, Json> := map[];
    var i := 0;
    while i < |want|
      invariant 0 <= i <= |want|
      invariant forall e :: LastOf(want[..i], e) == if e in wanted then Some(wanted[e]) else None
    {
      assert want[..i + 1][..i] == want[..i];
      wanted := wanted[want[i].key := want[i].value];
      i := i + 1;
    }
    assert want[..i] == want;
    forall k | 0 <= k < |want| ensures LastOf(want, want[k].key).Some? {
      NamedHasLast(want, k);
    }
    latest := seq(|want|, k requires 0 <= k < |want| && want[k].key in wanted =>
      Field(want[k].key, wanted[want[k].key]));
  }

  lemma {:induction false} NamedHasLast(want: seq<Field>, k: nat)
    requires k < |want|
    ensures LastOf(want, want[k].key).Some?
  {
    if k < |want| - 1 {
      NamedHasLast(want[..|want| - 1], k);
    }
  }

  lemma FieldAt(hooks: OrderedObject, k: nat)
    requires hooks.Valid() && k < |hooks.Fields()|
    ensures hooks.Fields()[k].key in hooks.vals && hooks.vals[hooks.Fields()[k].key] == hooks.Fields()[k].value
  {
    assert hooks.keys[k] in hooks.keys;
  }

  lemma SettledIs(ours: Ours, want: seq<Field>, f: Field)
    ensures Settled(ours, want, f)
            <==> f.value.Arr? && Get(want, f.key).Some?
                 && Count(ours, f.value.items) == 1 && LastIn(ours, f.value.items) == Get(want, f.key)
  {
    GetHas(want, f.key);
  }

  lemma SettledNext(ours: Ours, want: seq<Field>, h: seq<Field>, i: nat)
    requires i < |h|
    ensures forall e :: IsSettled(ours, want, h[..i + 1], e)
                        <==> IsSettled(ours, want, h[..i], e) || (e == h[i].key && Settled(ours, want, h[i]))
  {
    hide Settled;
    forall e | IsSettled(ours, want, h[..i], e) || (e == h[i].key && Settled(ours, want, h[i]))
      ensures IsSettled(ours, want, h[..i + 1], e)
    {
      if IsSettled(ours, want, h[..i], e) {
        var k :| 0 <= k < i && h[..i][k].key == e && Settled(ours, want, h[..i][k]);
        assert h[..i + 1][k] == h[k];
      } else {
        assert h[..i + 1][i] == h[i];
      }
    }
    forall e | IsSettled(ours, want, h[..i + 1], e)
      ensures IsSettled(ours, want, h[..i], e) || (e == h[i].key && Settled(ours, want, h[i]))
    {
      var k :| 0 <= k < i + 1 && h[..i + 1][k].key == e && Settled(ours, want, h[..i + 1][k]);
      if k < i { assert h[..i][k] == h[k]; }
    }
  }

  lemma StrippedNone(ours: Ours, want: seq<Field>, h: seq<Field>)
    ensures StrippedFields(ours, want, h[..0]) + h[0..] == h
    ensures forall e :: !IsSettled(ours, want, h[..0], e)
  {
  }

  lemma FieldsAreKeys(hooks: OrderedObject)
    requires hooks.Valid()
    ensures Distinct(hooks.Fields()) && |hooks.Fields()| == |hooks.keys|
    ensures forall k :: 0 <= k < |hooks.keys| ==> hooks.Fields()[k].key == hooks.keys[k]
  {
  }

  /** The wanted groups that are not settled, put last in their events one after another. */
  method AddWanted(hooks: OrderedObject, want: seq<Field>, ours: Ours, settled: set<string>, ghost h: seq<Field>)
    requires hooks.Valid() && forall e :: e in settled <==> IsSettled(ours, want, h, e)
    modifies hooks
    ensures hooks.Valid() && hooks.Fields() == AddedAll(ours, want, h, old(hooks.Fields()), want)
  {
    hide IsSettled;
    ghost var fields := hooks.Fields();
    var i := 0;
    while i < |want|
      invariant 0 <= i <= |want| && hooks.Valid()
      invariant hooks.Fields() == AddedAll(ours, want, h, fields, want[..i])
    {
      assert want[..i + 1][..i] == want[..i];
      var w := want[i];
      if w.key !in settled {
        GetFields(hooks, w.key);
        if w.key !in hooks.vals {
          hooks.SetKey(w.key, Arr([w.value]));
        } else if hooks.vals[w.key].Arr? {
          hooks.SetKey(w.key, Arr(hooks.vals[w.key].items + [w.value]));
        }
      }
      i := i + 1;
    }
    assert want[..i] == want;
  }

  lemma GetFields(hooks: OrderedObject, key: string)
    requires hooks.Valid()
    ensures Get(hooks.Fields(), key) == if key in hooks.vals then Some(hooks.vals[key]) else None
  {
    var fields := hooks.Fields();
    GetHas(fields, key);
    if key in hooks.vals {
      var k :| 0 <= k < |hooks.keys| && hooks.keys[k] == key;
      assert fields[k].key == key;
    } else {
      forall k | 0 <= k < |fields| ensures fields[k].key != key {
        assert hooks.keys[k] in hooks.keys;
      }
    }
  }
}
