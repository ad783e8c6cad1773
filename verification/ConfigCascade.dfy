/**
 The configuration cascade: `deepMerge` (packages/shared/src/config.ts) and the
 resolver built on it (packages/hub/src/config.ts).
 */
module ConfigCascade {
  import opened Prelude
  import opened JsObjects

  /** A source of a merge by its own enumerable entries; null and undefined sources are None. */
  type Layer = Option<Entries>

  // ----- merging

  lemma {:induction false} DropDepth(v: Value, key: string)
    requires v.Object?
    ensures Depth(v.(own := Drop(v.own, key))) <= Depth(v)
  {
  }

  /** An object value and the object it lands on are nested less deeply than the result and the source. */
  lemma {:induction false} CurrentIsNested(result: Value, e: Entry)
    requires result.Object? && e.value.Object? && Current(result, e.key).Some?
    ensures var c, bound := Current(result, e.key).value, Max(Depth(result) - 1, Depth(e.value));
            && Depth(EMPTY) == 1 <= bound < Max(Depth(result), 1 + Depth(e.value))
            && 1 + EntriesDepth(c.own) <= bound && 1 + EntriesDepth(e.value.own) <= bound
  {
    hide Current;
  }

  /** Merging an entry leaves no more nesting to come. */
  lemma {:induction false} StepIsBounded(before: nat, after: nat, entries: Entries)
    requires entries != [] && after <= Max(before, 1 + Depth(entries[0].value))
    ensures Max(after, 1 + EntriesDepth(entries[1..])) <= Max(before, 1 + EntriesDepth(entries))
    ensures Depth(entries[0].value) <= EntriesDepth(entries) && EntriesDepth(entries[1..]) <= EntriesDepth(entries)
  {
  }

  /** What an entry assigns: an object is merged into a copy of the object it lands on. */
  function Assigned(result: Value, e: Entry): (r: Option<Value>)
    requires result.Object?
    ensures r.Some? ==> !IsAbsent(r.value) && Depth(r.value) <= Max(Depth(result) - 1, Depth(e.value))
    ensures r == None <==> IsAbsent(e.value)
    decreases Max(Depth(result), 1 + Depth(e.value)), 0
  {
    if IsAbsent(e.value) then None
    else if e.value.Object? && Current(result, e.key).Some? then
      CurrentIsNested(result, e);
      Some(MergeAll(MergeAll(EMPTY, Current(result, e.key).value.own), e.value.own))
    else Some(e.value)
  }

  /** One entry of a source. */
  function MergeEntry(result: Value, e: Entry): (r: Value)
    requires result.Object?
    ensures r.Object? && Depth(r) <= Max(Depth(result), 1 + Depth(e.value))
    decreases Max(Depth(result), 1 + Depth(e.value)), 1
  {
    if e.value == Null then DropDepth(result, e.key); result.(own := Drop(result.own, e.key))
    else if e.value == Undefined then result
    else PrototypeDepth(result); Assign(result, e.key, Assigned(result, e).value)
  }

  function MergeAll(result: Value, entries: Entries): (r: Value)
    requires result.Object?
    ensures r.Object? && Depth(r) <= Max(Depth(result), 1 + EntriesDepth(entries))
    decreases Max(Depth(result), 1 + EntriesDepth(entries)), 1 + |entries|
  {
    if entries == [] then result
    else
      StepIsBounded(Depth(result), Depth(result), entries);
      var next := MergeEntry(result, entries[0]);
      StepIsBounded(Depth(result), Depth(next), entries);
      MergeAll(next, entries[1..])
  }

  /** `deepMerge` of two objects. */
  function Merge2(a: Value, b: Value): (r: Value)
    requires a.Object? && b.Object?
    ensures r.Object?
  {
    MergeAll(MergeAll(EMPTY, a.own), b.own)
  }

  function MergeLayer(result: Value, layer: Layer): (r: Value)
    requires result.Object?
    ensures r.Object?
  {
    if layer == None then result else MergeAll(result, layer.value)
  }

  function MergeOnto(result: Value, layers: seq<Layer>): (r: Value)
    requires result.Object?
    ensures r.Object?
    decreases |layers|
  {
    if layers == [] then result else MergeOnto(MergeLayer(result, layers[0]), layers[1..])
  }

  function DeepMerge(layers: seq<Layer>): (r: Value)
    ensures r.Object?
  {
    MergeOnto(EMPTY, layers)
  }

  lemma {:induction false} MergeAllAppends(result: Value, a: Entries, b: Entries)
    requires result.Object?
    ensures MergeAll(result, a + b) == MergeAll(MergeAll(result, a), b)
    decreases |a|
  {
    if a == [] {
      assert a + b == b;
    } else {
      assert (a + b)[0] == a[0] && (a + b)[1..] == a[1..] + b;
      MergeAllAppends(MergeEntry(result, a[0]), a[1..], b);
    }
  }

  lemma {:induction false} MergeOntoAppends(result: Value, a: seq<Layer>, b: seq<Layer>)
    requires result.Object?
    ensures MergeOnto(result, a + b) == MergeOnto(MergeOnto(result, a), b)
    decreases |a|
  {
    if a == [] {
      assert a + b == b;
    } else {
      assert (a + b)[0] == a[0] && (a + b)[1..] == a[1..] + b;
      MergeOntoAppends(MergeLayer(result, a[0]), a[1..], b);
    }
  }

  lemma {:induction false} OneLayer(result: Value, layer: Layer)
    requires result.Object?
    ensures MergeOnto(result, [layer]) == MergeLayer(result, layer)
  {
    assert [layer][1..] == [];
    assert MergeOnto(MergeLayer(result, layer), []) == MergeLayer(result, layer);
  }

  lemma {:induction false} LastLayer(result: Value, layers: seq<Layer>, layer: Layer)
    requires result.Object?
    ensures MergeOnto(result, layers + [layer]) == MergeLayer(MergeOnto(result, layers), layer)
  {
    MergeOntoAppends(result, layers, [layer]);
    OneLayer(MergeOnto(result, layers), layer);
  }

  lemma {:induction false} MergeOfOneAndTwo(a: Entries, b: Entries)
    ensures DeepMerge([Some(a)]) == MergeAll(EMPTY, a)
    ensures DeepMerge([Some(a), Some(b)]) == MergeAll(MergeAll(EMPTY, a), b)
  {
    OneLayer(EMPTY, Some(a));
    LastLayer(EMPTY, [Some(a)], Some(b));
    assert [Some(a)] + [Some(b)] == [Some(a), Some(b)];
  }

  /** The recursive call of the source: an object value lands on the object that is read
      there, own or inherited, as the second of two layers. */
  lemma {:induction false} NestedMergeIsDeepMerge(result: Value, e: Entry)
    requires result.Object? && e.value.Object? && Current(result, e.key).Some?
    ensures MergeEntry(result, e) ==
            Assign(result, e.key, DeepMerge([Some(Current(result, e.key).value.own), Some(e.value.own)]))
  {
    MergeOfOneAndTwo(Current(result, e.key).value.own, e.value.own);
  }

  // ----- what every result looks like

  lemma {:induction false} EntryAssigns(result: Value, e: Entry)
    requires result.Object?
    ensures MergeEntry(result, e) ==
      if e.value == Null then result.(own := Drop(result.own, e.key))
      else if e.value == Undefined then result
      else Assign(result, e.key, Assigned(result, e).value)
    ensures Assigned(result, e) ==
      if IsAbsent(e.value) then None
      else if e.value.Object? && Current(result, e.key).Some? then Some(Merge2(Current(result, e.key).value, e.value))
      else Some(e.value)
  {
    hide Current, Assign;
  }

  lemma {:induction false} EntryKeepsTidy(result: Value, e: Entry)
    requires result.Object? && Tidy(result.own)
    ensures Tidy(MergeEntry(result, e).own)
  {
    EntryAssigns(result, e);
    hide MergeEntry, Assigned, Tidy, Assign;
    if e.value == Null {
      DropTidy(result.own, e.key);
    } else if e.value != Undefined {
      AssignKeepsTidy(result, e.key, Assigned(result, e).value);
    }
  }

  lemma {:induction false} MergeKeepsTidy(result: Value, entries: Entries)
    requires result.Object? && Tidy(result.own)
    ensures Tidy(MergeAll(result, entries).own)
    decreases |entries|
  {
    if entries != [] {
      EntryKeepsTidy(result, entries[0]);
      MergeKeepsTidy(MergeEntry(result, entries[0]), entries[1..]);
    }
  }

  lemma {:induction false} LayersKeepTidy(result: Value, layers: seq<Layer>)
    requires result.Object? && Tidy(result.own)
    ensures Tidy(MergeOnto(result, layers).own)
    decreases |layers|
  {
    if layers != [] {
      if layers[0].Some? { MergeKeepsTidy(result, layers[0].value); }
      LayersKeepTidy(MergeLayer(result, layers[0]), layers[1..]);
    }
  }

  /** Copying tidy entries gives them back, without the prototype. */
  lemma {:induction false} CopyOfTidy(done: Entries, rest: Entries)
    requires Tidy(done + rest) && Own(done + rest, PROTO) == None
    ensures MergeAll(Object(done, Standard), rest) == Object(done + rest, Standard)
    decreases |rest|
  {
    if rest == [] {
      assert done + rest == done;
    } else {
      var e := rest[0];
      assert (done + rest)[|done|] == e;
      assert done + rest == (done + [e]) + rest[1..];
      NotOwn(done, rest);
      var _ := OwnIsEntry(done + rest, PROTO);
      EntryAssigns(Object(done, Standard), e);
      PutNew(done, e.key, e.value);
      CopyOfTidy(done + [e], rest[1..]);
    }
  }

  lemma {:induction false} NotOwn(done: Entries, rest: Entries)
    requires Distinct(done + rest) && rest != []
    ensures Own(done, rest[0].key) == None
  {
    var i := OwnIsEntry(done, rest[0].key);
    assert (done + rest)[|done|] == rest[0];
    if i < |done| { assert (done + rest)[i] == done[i]; }
  }

  lemma {:induction false} CopyOfResult(own: Entries)
    requires Tidy(own) && Own(own, PROTO) == None
    ensures MergeAll(EMPTY, own) == Object(own, Standard)
  {
    assert [] + own == own;
    CopyOfTidy([], own);
  }

  // ----- what a result inherits

  /** Reading an inherited property never finds an object, and a later `__proto__` entry
      finds as much as it would on an empty object. */
  predicate Blank(proto: Proto) {
    proto.Installed? ==>
      && proto.holder.Object?
      && Find(proto.holder, PROTO) == None
      && (forall i :: 0 <= i < |proto.holder.own| ==> IsAbsent(proto.holder.own[i].value))
      && FindsNoObject(proto.holder)
  }

  predicate FindsObject(v: Value, key: string) {
    Find(v, key).Some? && Find(v, key).value.Object?
  }

  /** No object is found under the keys of the prototype chain. */
  predicate FindsNoObject(v: Value) {
    var keys := KeysOnChain(v);
    forall i :: 0 <= i < |keys| ==> !FindsObject(v, keys[i])
  }

  /** Looking at the keys of the chain is looking at all keys. */
  lemma {:induction false} ChainHasAllKeys(v: Value)
    ensures FindsNoObject(v) <==> forall k :: !FindsObject(v, k)
  {
    forall k | FindsObject(v, k) ensures !FindsNoObject(v) {
      FoundIsOnChain(v, k);
      var i :| 0 <= i < |KeysOnChain(v)| && KeysOnChain(v)[i] == k;
    }
  }

  /** Nothing that the result inherits, or would inherit, can take part in a later merge. */
  predicate Neutral(result: Value)
    requires result.Object?
  {
    Own(result.own, PROTO) == None && Blank(result.proto)
  }

  /** The same own entries, and prototypes that are equal or of no account. */
  ghost predicate Alike(x: Value, y: Value)
    requires x.Object? && y.Object?
  {
    x.own == y.own && (x.proto == y.proto || (Neutral(x) && Blank(y.proto)))
  }

  lemma {:induction false} CopyOfAbsent(entries: Entries)
    requires forall i :: 0 <= i < |entries| ==> IsAbsent(entries[i].value)
    ensures MergeAll(EMPTY, entries) == EMPTY
    decreases |entries|
  {
    if entries != [] {
      assert MergeEntry(EMPTY, entries[0]) == EMPTY;
      CopyOfAbsent(entries[1..]);
    }
  }

  /** What a neutral result finds: own objects, and on `__proto__` an object that copies to nothing. */
  lemma {:induction false} NeutralCurrent(x: Value, key: string)
    requires x.Object? && Neutral(x)
    ensures key != PROTO ==>
      Current(x, key) == if Own(x.own, key).Some? && Own(x.own, key).value.Object? then Own(x.own, key) else None
    ensures key == PROTO ==> Current(x, key).Some? && MergeAll(EMPTY, Current(x, key).value.own) == EMPTY
    ensures Find(x, PROTO) == None
  {
    CopyOfAbsent([]);
    assert Find(x, key) == if Own(x.own, key).Some? then Own(x.own, key)
                           else if x.proto.Installed? then Find(x.proto.holder, key) else None;
    if x.proto.Installed? {
      CopyOfAbsent(x.proto.holder.own);
      ChainHasAllKeys(x.proto.holder);
      assert !FindsObject(x.proto.holder, key);
    }
  }

  lemma {:induction false} AlikeAssigns(x: Value, y: Value, e: Entry)
    requires x.Object? && y.Object? && Neutral(x) && Neutral(y) && x.own == y.own
    ensures Assigned(x, e) == Assigned(y, e)
  {
    EntryAssigns(x, e);
    EntryAssigns(y, e);
    hide Neutral, Current;
    NeutralCurrent(x, e.key);
    NeutralCurrent(y, e.key);
  }

  lemma {:induction false} NeutralAssign(x: Value, y: Value, key: string, value: Value)
    requires x.Object? && y.Object? && Neutral(x) && Neutral(y) && x.own == y.own
    ensures Alike(Assign(x, key, value), Assign(y, key, value))
  {
    NeutralCurrent(x, key);
    NeutralCurrent(y, key);
    PutOwn(x.own, key, value, PROTO);
  }

  lemma {:induction false} AlikeStep(x: Value, y: Value, e: Entry)
    requires x.Object? && y.Object? && Alike(x, y)
    ensures Alike(MergeEntry(x, e), MergeEntry(y, e))
  {
    if x.proto == y.proto {
      assert x == y;
    } else {
      EntryAssigns(x, e);
      EntryAssigns(y, e);
      AlikeAssigns(x, y, e);
      DropOwn(x.own, e.key, PROTO);
      hide MergeEntry, Assigned, Assign, Blank;
      if !IsAbsent(e.value) { NeutralAssign(x, y, e.key, Assigned(x, e).value); }
    }
  }

  lemma {:induction false} AlikeMerge(x: Value, y: Value, entries: Entries)
    requires x.Object? && y.Object? && Alike(x, y)
    ensures Alike(MergeAll(x, entries), MergeAll(y, entries))
    decreases |entries|
  {
    if entries != [] {
      hide Alike, MergeEntry;
      AlikeStep(x, y, entries[0]);
      AlikeMerge(MergeEntry(x, entries[0]), MergeEntry(y, entries[0]), entries[1..]);
    }
  }

  lemma {:induction false} AlikeLayers(x: Value, y: Value, layers: seq<Layer>)
    requires x.Object? && y.Object? && Alike(x, y)
    ensures Alike(MergeOnto(x, layers), MergeOnto(y, layers))
    decreases |layers|
  {
    if layers != [] {
      hide Alike;
      if layers[0].Some? { AlikeMerge(x, y, layers[0].value); }
      AlikeLayers(MergeLayer(x, layers[0]), MergeLayer(y, layers[0]), layers[1..]);
    }
  }

  // ----- layers that separate a result from its copy

  lemma {:induction false} CopyHasNoProto(done: Value, rest: Entries)
    requires done.Object? && Own(done.own, PROTO) == None && Distinct(rest)
    requires Find(done, PROTO) == None || Own(rest, PROTO) == None
    ensures Own(MergeAll(done, rest).own, PROTO) == None
    decreases |rest|
  {
    if rest != [] {
      var e := rest[0];
      EntryAssigns(done, e);
      DropOwn(done.own, e.key, PROTO);
      if !IsAbsent(e.value) { PutOwn(done.own, e.key, Assigned(done, e).value, PROTO); }
      hide Assigned;
      if e.key == PROTO { LaterIsOther(rest); }
      CopyHasNoProto(MergeEntry(done, e), rest[1..]);
    }
  }

  lemma {:induction false} LaterIsOther(entries: Entries)
    requires Distinct(entries) && entries != []
    ensures Own(entries[1..], entries[0].key) == None
  {
    var i := OwnIsEntry(entries[1..], entries[0].key);
    if i < |entries| - 1 { assert entries[1..][i] == entries[i + 1]; }
  }

  lemma {:induction false} OneEntry(result: Value, e: Entry)
    requires result.Object?
    ensures MergeAll(result, [e]) == MergeEntry(result, e)
  {
    assert [e][1..] == [];
    assert MergeAll(MergeEntry(result, e), []) == MergeEntry(result, e);
  }

  lemma {:induction false} OneEntryLayers(result: Value, e: Entry, f: Entry)
    requires result.Object?
    ensures MergeOnto(result, [Some([e])]) == MergeEntry(result, e)
    ensures MergeOnto(result, [Some([e]), Some([f])]) == MergeEntry(MergeEntry(result, e), f)
  {
    OneEntry(result, e);
    OneEntry(MergeEntry(result, e), f);
    OneLayer(result, Some([e]));
    LastLayer(result, [Some([e])], Some([f]));
    assert [Some([e])] + [Some([f])] == [Some([e]), Some([f])];
  }

  /** Remove `k`, then give it an object that holds a null. */
  function Probe(k: string): seq<Layer> {
    [Some([Entry(k, Null)]), Some([Entry(k, Object([Entry("q", Null)], Standard))])]
  }

  predicate InheritsObject(x: Value, k: string)
    requires x.Object?
  {
    x.proto.Installed? && Find(x.proto.holder, k).Some? && Find(x.proto.holder, k).value.Object?
  }

  /** Whether the value of `k` is an object that still holds the null. */
  predicate NullStays(x: Value, k: string)
    requires x.Object?
  {
    Own(x.own, k).Some? && Own(x.own, k).value.Object? && Own(Own(x.own, k).value.own, "q").Some?
  }

  /** After the probe the null is still there exactly when no object was inherited. */
  lemma {:induction false} ProbeShows(x: Value, k: string)
    requires x.Object? && k != PROTO
    ensures NullStays(MergeOnto(x, Probe(k)), k) <==> !InheritsObject(x, k)
  {
    var holdsNull := Object([Entry("q", Null)], Standard);
    var e, f := Entry(k, Null), Entry(k, holdsNull);
    OneEntryLayers(x, e, f);
    var y := MergeEntry(x, e);
    DropOwn(x.own, k, k);
    assert y == x.(own := Drop(x.own, k)) && Find(y, k) == if x.proto.Installed? then Find(x.proto.holder, k) else None;
    EntryAssigns(x, e);
    EntryAssigns(y, f);
    var value := Assigned(y, f).value;
    PutOwn(y.own, k, value, k);
    if InheritsObject(x, k) {
      var c := MergeAll(EMPTY, Find(y, k).value.own);
      OneEntry(c, Entry("q", Null));
      DropOwn(c.own, "q", "q");
    }
  }

  /** Copying distinct entries other than `__proto__` keeps exactly what is not null or undefined. */
  lemma {:induction false} CopyKeeps(done: Value, rest: Entries, k: string)
    requires done.Object? && done.proto == Standard && Own(done.own, PROTO) == None
    requires Distinct(rest) && Own(rest, PROTO) == None
    requires forall i :: 0 <= i < |rest| ==> Own(done.own, rest[i].key) == None
    ensures var r := MergeAll(done, rest);
            && r.proto == Standard && Own(r.own, PROTO) == None
            && Own(r.own, k) == if Own(rest, k).Some? && !IsAbsent(Own(rest, k).value) then Own(rest, k) else Own(done.own, k)
    decreases |rest|
  {
    if rest != [] {
      var e, next := rest[0], MergeEntry(done, rest[0]);
      EntryAssigns(done, e);
      DropNone(done.own, e.key);
      LaterIsOther(rest);
      forall j { PutOwn(done.own, e.key, e.value, j); }
      assert next == if IsAbsent(e.value) then done else done.(own := Put(done.own, e.key, e.value));
      forall i | 0 <= i < |rest| - 1 ensures Own(next.own, rest[1..][i].key) == None {
        assert rest[1..][i] == rest[i + 1];
      }
      hide MergeEntry;
      CopyKeeps(next, rest[1..], k);
    }
  }

  /** A prototype that hides an inherited object behind a copied entry: the copy of the
      result inherits the object from the layer, the result itself does not. */
  function Behind(k: string): Layer {
    Some([Entry(PROTO, Object([Entry(PROTO, Object([Entry(k, EMPTY)], Standard))], Standard))])
  }

  lemma {:induction false} BehindIsInherited(k: string)
    requires k != PROTO
    ensures MergeAll(EMPTY, [Entry(k, EMPTY)]) == Object([Entry(k, EMPTY)], Standard)
    ensures var w := Object([Entry(k, EMPTY)], Standard);
            forall x: Value :: x.Object? && x.proto == Standard && Own(x.own, PROTO) == None ==>
              MergeAll(x, [Entry(PROTO, w)]) == x.(proto := Installed(w))
  {
    var w := Object([Entry(k, EMPTY)], Standard);
    CopyOfResult([Entry(k, EMPTY)]);
    CopyOfAbsent([]);
    forall x: Value | x.Object? && x.proto == Standard && Own(x.own, PROTO) == None
      ensures MergeAll(x, [Entry(PROTO, w)]) == x.(proto := Installed(w))
    {
      OneEntry(x, Entry(PROTO, w));
      EntryAssigns(x, Entry(PROTO, w));
      assert Find(x, PROTO) == None && Current(x, PROTO) == Some(EMPTY);
    }
  }

  lemma {:induction false} BehindLayer(x: Value, k: string)
    requires x.Object? && Find(x, PROTO) == None && Current(x, PROTO).Some? && k != PROTO
    requires MergeAll(EMPTY, Current(x, PROTO).value.own).proto == Standard
    requires Own(MergeAll(EMPTY, Current(x, PROTO).value.own).own, PROTO) == None
    ensures var holder := MergeAll(EMPTY, Current(x, PROTO).value.own);
            MergeOnto(x, [Behind(k)]) == x.(proto := Installed(holder.(proto := Installed(Object([Entry(k, EMPTY)], Standard)))))
  {
    var v := Behind(k).value[0];
    OneLayer(x, Behind(k));
    OneEntry(x, v);
    EntryAssigns(x, v);
    BehindIsInherited(k);
  }

  lemma {:induction false} BehindAScalar(x: Value, i: nat)
    requires x.Object? && Find(x, PROTO) == None && x.proto.Installed? && x.proto.holder.Object?
    requires Distinct(x.proto.holder.own) && i < |x.proto.holder.own|
    requires !IsAbsent(x.proto.holder.own[i].value) && !x.proto.holder.own[i].value.Object?
    ensures var k := x.proto.holder.own[i].key;
            k != PROTO && !InheritsObject(MergeOnto(x, [Behind(k)]), k)
  {
    var h, k := x.proto.holder, x.proto.holder.own[i].key;
    EntryIsOwn(h.own, i);
    assert Find(h, PROTO) == None && k != PROTO;
    assert Current(x, PROTO) == Some(h);
    CopyKeeps(EMPTY, h.own, k);
    hide MergeAll, MergeOnto, Current;
    BehindLayer(x, k);
    assert Find(MergeOnto(x, [Behind(k)]).proto.holder, k) == Some(h.own[i].value);
  }

  lemma {:induction false} BehindNothing(x: Value, k: string)
    requires x.Object? && x.proto == Standard && Own(x.own, PROTO) == None && k != PROTO
    ensures InheritsObject(MergeOnto(x, [Behind(k)]), k)
  {
    assert Find(x, PROTO) == None && Current(x, PROTO) == Some(EMPTY);
    CopyOfAbsent([]);
    hide MergeAll, MergeOnto, Current;
    BehindLayer(x, k);
    assert Find(Object([Entry(k, EMPTY)], Standard), k) == Some(EMPTY);
  }

  /** A `__proto__` entry with a scalar, on its own and behind one that holds a scalar there. */
  function Hidden(twice: bool): seq<Layer> {
    var scalar := Entry(PROTO, Leaf(""));
    if twice then [Some([Entry(PROTO, Object([scalar], Standard))]), Some([scalar])] else [Some([scalar])]
  }

  lemma {:induction false} HiddenOnCopy(x: Value, twice: bool)
    requires x.Object? && x.proto == Standard && Own(x.own, PROTO) == None
    ensures Own(MergeOnto(x, Hidden(twice)).own, PROTO) == None
  {
    var scalar := Entry(PROTO, Leaf(""));
    var e := Entry(PROTO, Object([scalar], Standard));
    OneEntryLayers(x, if twice then e else scalar, scalar);
    CopyOfAbsent([]);
    OneEntry(EMPTY, scalar);
    EntryAssigns(x, e);
    EntryAssigns(EMPTY, scalar);
    assert Find(x, PROTO) == None && Current(x, PROTO) == Some(EMPTY);
    assert MergeEntry(EMPTY, scalar) == EMPTY;
  }

  lemma {:induction false} HiddenOnHiding(x: Value)
    requires x.Object? && Find(x, PROTO).Some?
    ensures Own(MergeOnto(x, Hidden(false)).own, PROTO).Some?
  {
    var scalar := Entry(PROTO, Leaf(""));
    OneEntryLayers(x, scalar, scalar);
    EntryAssigns(x, scalar);
    PutOwn(x.own, PROTO, Leaf(""), PROTO);
  }

  lemma {:induction false} HiddenOnArray(x: Value)
    requires x.Object? && Find(x, PROTO) == None && x.proto.Installed? && !x.proto.holder.Object?
    ensures Own(MergeOnto(x, Hidden(true)).own, PROTO).Some?
  {
    var scalar := Entry(PROTO, Leaf(""));
    var e := Entry(PROTO, Object([scalar], Standard));
    OneEntryLayers(x, e, scalar);
    EntryAssigns(x, e);
    assert Current(x, PROTO) == None;
    var y := x.(proto := Installed(e.value));
    assert Find(y, PROTO) == Some(Leaf(""));
    EntryAssigns(y, scalar);
    PutOwn(y.own, PROTO, Leaf(""), PROTO);
  }

  /** Some layers tell a result that is not neutral from its copy. */
  lemma {:induction false} Separates(x: Value) returns (b: seq<Layer>)
    requires x.Object? && Tidy(x.own) && !Neutral(x)
    requires x.proto.Installed? && x.proto.holder.Object? ==> Distinct(x.proto.holder.own)
    ensures MergeOnto(MergeAll(EMPTY, x.own), b).own != MergeOnto(x, b).own
  {
    var copy := MergeAll(EMPTY, x.own);
    CopyHasNoProto(EMPTY, x.own);
    if Own(x.own, PROTO).Some? {
      b := [];
    } else {
      CopyOfResult(x.own);
      assert copy == Object(x.own, Standard);
      if Find(x, PROTO).Some? {
        HiddenOnHiding(x);
        HiddenOnCopy(copy, false);
        b := Hidden(false);
      } else if !x.proto.holder.Object? {
        HiddenOnArray(x);
        HiddenOnCopy(copy, true);
        b := Hidden(true);
      } else {
        b := SeparatesByObject(x);
      }
    }
  }

  lemma {:induction false} SeparatesByObject(x: Value) returns (b: seq<Layer>)
    requires x.Object? && Tidy(x.own) && !Neutral(x)
    requires Find(x, PROTO) == None && x.proto.Installed? && x.proto.holder.Object? && Distinct(x.proto.holder.own)
    ensures MergeOnto(Object(x.own, Standard), b).own != MergeOnto(x, b).own
  {
    var h, copy := x.proto.holder, Object(x.own, Standard);
    assert Find(h, PROTO) == None && Own(x.own, PROTO) == None;
    ChainHasAllKeys(h);
    if k :| Find(h, k).Some? && Find(h, k).value.Object? {
      ProbeShows(x, k);
      ProbeShows(copy, k);
      b := Probe(k);
    } else {
      var i :| 0 <= i < |h.own| && !IsAbsent(h.own[i].value);
      EntryIsOwn(h.own, i);
      assert Find(h, h.own[i].key) == Some(h.own[i].value);
      var k := h.own[i].key;
      BehindAScalar(x, i);
      BehindNothing(copy, k);
      ProbeShows(MergeOnto(x, [Behind(k)]), k);
      ProbeShows(MergeOnto(copy, [Behind(k)]), k);
      MergeOntoAppends(x, [Behind(k)], Probe(k));
      MergeOntoAppends(copy, [Behind(k)], Probe(k));
      b := [Behind(k)] + Probe(k);
    }
  }

  // ----- the prefix law

  /** Objects have distinct keys, as every JavaScript object does. */
  ghost predicate WellFormed(v: Value) {
    v.Object? ==> Distinct(v.own) && forall i :: 0 <= i < |v.own| ==> WellFormed(v.own[i].value)
  }

  ghost predicate WellFormedLayers(layers: seq<Layer>) {
    forall i :: 0 <= i < |layers| && layers[i].Some? ==> WellFormed(Object(layers[i].value, Standard))
  }

  ghost predicate HolderOk(x: Value)
    requires x.Object?
  {
    Tidy(x.own) && (x.proto.Installed? && x.proto.holder.Object? ==> Distinct(x.proto.holder.own))
  }

  lemma {:induction false} EntryKeepsHolder(x: Value, e: Entry)
    requires x.Object? && HolderOk(x) && WellFormed(e.value)
    ensures HolderOk(MergeEntry(x, e))
  {
    EntryKeepsTidy(x, e);
    EntryAssigns(x, e);
    if e.value.Object? && Current(x, e.key).Some? {
      MergeKeepsTidy(EMPTY, Current(x, e.key).value.own);
      MergeKeepsTidy(MergeAll(EMPTY, Current(x, e.key).value.own), e.value.own);
    }
  }

  lemma {:induction false} MergeKeepsHolder(x: Value, entries: Entries)
    requires x.Object? && HolderOk(x) && forall i :: 0 <= i < |entries| ==> WellFormed(entries[i].value)
    ensures HolderOk(MergeAll(x, entries))
    decreases |entries|
  {
    if entries != [] {
      EntryKeepsHolder(x, entries[0]);
      hide HolderOk, WellFormed, MergeEntry;
      MergeKeepsHolder(MergeEntry(x, entries[0]), entries[1..]);
    }
  }

  lemma {:induction false} LayersKeepHolder(x: Value, layers: seq<Layer>)
    requires x.Object? && HolderOk(x) && WellFormedLayers(layers)
    ensures HolderOk(MergeOnto(x, layers))
    decreases |layers|
  {
    if layers != [] {
      if layers[0].Some? {
        assert WellFormed(Object(layers[0].value, Standard));
        MergeKeepsHolder(x, layers[0].value);
      }
      assert forall i :: 0 <= i < |layers| - 1 ==> layers[1..][i] == layers[i + 1];
      hide HolderOk, WellFormed;
      LayersKeepHolder(MergeLayer(x, layers[0]), layers[1..]);
    }
  }

  lemma {:induction false} MergedFirst(a: seq<Layer>, b: seq<Layer>)
    ensures DeepMerge(a + b) == MergeOnto(DeepMerge(a), b)
    ensures DeepMerge([Some(DeepMerge(a).own)] + b) == MergeOnto(MergeAll(EMPTY, DeepMerge(a).own), b)
  {
    MergeOntoAppends(EMPTY, a, b);
    MergeOntoAppends(EMPTY, [Some(DeepMerge(a).own)], b);
    OneLayer(EMPTY, Some(DeepMerge(a).own));
  }

  /** Merging the layers `a` first gives the same own entries, whatever comes after them,
      exactly when nothing that `a` leaves inherited can take part in a later merge. */
  lemma {:induction false} PrefixCanBeMergedFirst(a: seq<Layer>)
    requires WellFormedLayers(a)
    ensures (forall b :: DeepMerge([Some(DeepMerge(a).own)] + b).own == DeepMerge(a + b).own) <==> Neutral(DeepMerge(a))
  {
    var x := DeepMerge(a);
    LayersKeepHolder(EMPTY, a);
    if Neutral(x) {
      CopyOfResult(x.own);
      forall b ensures DeepMerge([Some(x.own)] + b).own == DeepMerge(a + b).own {
        MergedFirst(a, b);
        AlikeLayers(x, Object(x.own, Standard), b);
      }
    } else {
      var b := Separates(x);
      MergedFirst(a, b);
    }
  }

  /** The entry does not set a prototype. */
  predicate KeepsPrototype(e: Entry) {
    e.key == PROTO ==> !e.value.Object? && !e.value.List?
  }

  /** No `__proto__` entry of the layers holds an object or an array. */
  predicate NoPrototype(layers: seq<Layer>) {
    forall i :: 0 <= i < |layers| && layers[i].Some? ==>
      forall j :: 0 <= j < |layers[i].value| ==> KeepsPrototype(layers[i].value[j])
  }

  ghost predicate Plain(x: Value)
    requires x.Object?
  {
    x.proto == Standard && Own(x.own, PROTO) == None
  }

  lemma {:induction false} PlainStep(x: Value, e: Entry)
    requires x.Object? && Plain(x)
    ensures if KeepsPrototype(e) then Plain(MergeEntry(x, e)) else MergeEntry(x, e).proto.Installed?
  {
    EntryAssigns(x, e);
    DropOwn(x.own, e.key, PROTO);
    if !IsAbsent(e.value) { PutOwn(x.own, e.key, Assigned(x, e).value, PROTO); }
  }

  lemma {:induction false} InstalledStays(x: Value, entries: Entries)
    requires x.Object? && x.proto.Installed?
    ensures MergeAll(x, entries).proto.Installed?
    decreases |entries|
  {
    if entries != [] {
      EntryAssigns(x, entries[0]);
      InstalledStays(MergeEntry(x, entries[0]), entries[1..]);
    }
  }

  lemma {:induction false} InstalledStaysOn(x: Value, layers: seq<Layer>)
    requires x.Object? && x.proto.Installed?
    ensures MergeOnto(x, layers).proto.Installed?
    decreases |layers|
  {
    if layers != [] {
      if layers[0].Some? { InstalledStays(x, layers[0].value); }
      InstalledStaysOn(MergeLayer(x, layers[0]), layers[1..]);
    }
  }

  lemma {:induction false} PlainMerge(x: Value, entries: Entries)
    requires x.Object? && Plain(x)
    ensures if forall j :: 0 <= j < |entries| ==> KeepsPrototype(entries[j]) then Plain(MergeAll(x, entries))
            else MergeAll(x, entries).proto.Installed?
    decreases |entries|
  {
    if entries != [] {
      PlainStep(x, entries[0]);
      hide MergeEntry, Plain, KeepsPrototype;
      assert forall j :: 0 <= j < |entries| - 1 ==> entries[1..][j] == entries[j + 1];
      if KeepsPrototype(entries[0]) {
        PlainMerge(MergeEntry(x, entries[0]), entries[1..]);
        assert forall j :: 0 < j < |entries| ==> entries[j] == entries[1..][j - 1];
      } else {
        InstalledStays(MergeEntry(x, entries[0]), entries[1..]);
      }
    }
  }

  lemma {:induction false} PlainLayers(x: Value, layers: seq<Layer>)
    requires x.Object? && Plain(x)
    ensures if NoPrototype(layers) then Plain(MergeOnto(x, layers)) else MergeOnto(x, layers).proto.Installed?
    decreases |layers|
  {
    if layers != [] {
      if layers[0].Some? { PlainMerge(x, layers[0].value); }
      hide Plain, KeepsPrototype;
      var next, rest := MergeLayer(x, layers[0]), layers[1..];
      assert forall i :: 0 <= i < |rest| ==> rest[i] == layers[i + 1];
      assert forall i :: 0 < i < |layers| ==> layers[i] == rest[i - 1];
      if layers[0] == None || forall j :: 0 <= j < |layers[0].value| ==> KeepsPrototype(layers[0].value[j]) {
        PlainLayers(next, rest);
      } else {
        InstalledStaysOn(next, rest);
      }
    }
  }

  /** Merging the layers `a` first gives the same object, prototype included, whatever
      comes after them, exactly when none of them sets a prototype. */
  lemma {:induction false} PrefixIsInvisible(a: seq<Layer>)
    ensures (forall b :: DeepMerge([Some(DeepMerge(a).own)] + b) == DeepMerge(a + b)) <==> NoPrototype(a)
  {
    var x := DeepMerge(a);
    PlainLayers(EMPTY, a);
    LayersKeepTidy(EMPTY, a);
    if NoPrototype(a) {
      CopyOfResult(x.own);
      forall b ensures DeepMerge([Some(x.own)] + b) == DeepMerge(a + b) { MergedFirst(a, b); }
    } else {
      MergedFirst(a, []);
      CopyHasNoProto(EMPTY, x.own);
      if Own(x.own, PROTO) == None { CopyOfResult(x.own); }
      assert DeepMerge([Some(x.own)] + []) != DeepMerge(a + []);
    }
  }

  // ----- the law at an input where it fails

  const INHERITING_HOST: Entries := [Entry(PROTO, Object([Entry("x", Object([Entry("p", Leaf("1"))], Standard))], Standard))]

  const CHANNEL: Entries := [Entry("x", Object([Entry("q", Leaf("2"))], Standard))]

  lemma {:induction false} HostInstalls()
    ensures DeepMerge([Some(INHERITING_HOST)]) == Object([], Installed(INHERITING_HOST[0].value))
  {
    var e := INHERITING_HOST[0];
    OneLayer(EMPTY, Some(INHERITING_HOST));
    OneEntry(EMPTY, e);
    EntryAssigns(EMPTY, e);
    assert Find(EMPTY, PROTO) == None && Current(EMPTY, PROTO) == Some(EMPTY);
    CopyOfAbsent([]);
    CopyOfResult(e.value.own);
  }

  lemma {:induction false} TwoFields()
    ensures Merge2(Object([Entry("p", Leaf("1"))], Standard), Object([Entry("q", Leaf("2"))], Standard))
         == Object([Entry("p", Leaf("1")), Entry("q", Leaf("2"))], Standard)
  {
    var p, q := Entry("p", Leaf("1")), Entry("q", Leaf("2"));
    CopyOfResult([p]);
    OneEntry(Object([p], Standard), q);
    EntryAssigns(Object([p], Standard), q);
    assert "p" != "q" && Own([p], "q") == None && "q" != PROTO;
    PutNew([p], "q", Leaf("2"));
  }

  /** The channel's entry merges into the object that the host's prototype holds at `x`. */
  lemma {:induction false} ChannelMeetsInherited(x: Value)
    requires x == Object([], Installed(INHERITING_HOST[0].value))
    ensures MergeAll(x, CHANNEL).own == [Entry("x", Object([Entry("p", Leaf("1")), Entry("q", Leaf("2"))], Standard))]
  {
    var e := CHANNEL[0];
    OneEntry(x, e);
    EntryAssigns(x, e);
    hide MergeAll, MergeEntry, Assigned, Merge2;
    assert "x" != PROTO && Find(x, "x") == Own(INHERITING_HOST[0].value.own, "x");
    TwoFields();
  }

  /** `{__proto__: {x: {p: 1}}}` and then `{x: {q: 2}}`: together they give `x` both
      entries, but only `q` when the first is merged alone before. */
  lemma {:induction false} MergingTheHostFirstLosesAnEntry()
    ensures DeepMerge([Some(INHERITING_HOST), Some(CHANNEL)]).own
         == [Entry("x", Object([Entry("p", Leaf("1")), Entry("q", Leaf("2"))], Standard))]
    ensures DeepMerge([Some(DeepMerge([Some(INHERITING_HOST)]).own), Some(CHANNEL)]).own == CHANNEL
  {
    hide DeepMerge, MergeAll;
    HostInstalls();
    MergeOfOneAndTwo(INHERITING_HOST, CHANNEL);
    ChannelMeetsInherited(DeepMerge([Some(INHERITING_HOST)]));
    MergeOfOneAndTwo([], CHANNEL);
    CopyOfAbsent([]);
    CopyOfResult(CHANNEL);
  }

  // ----- one key at a time

  /** What a layer says about a key, and about the prototype. */
  function About(entries: Entries, key: string): Entries {
    if entries == [] then []
    else (if entries[0].key == key || entries[0].key == PROTO then [entries[0]] else []) + About(entries[1..], key)
  }

  function LayersAbout(layers: seq<Layer>, key: string): seq<Layer> {
    if layers == [] then []
    else [if layers[0] == None then None else Some(About(layers[0].value, key))] + LayersAbout(layers[1..], key)
  }

  /** Alike in everything that matters for one key. */
  ghost predicate AgreeOn(x: Value, y: Value, key: string)
    requires x.Object? && y.Object?
  {
    x.proto == y.proto && Own(x.own, key) == Own(y.own, key) && Own(x.own, PROTO) == Own(y.own, PROTO)
  }

  /** An entry changes its own key and no other; only `__proto__` changes the prototype. */
  lemma {:induction false} EntryElsewhere(x: Value, e: Entry, key: string)
    requires x.Object?
    ensures key != e.key ==> Own(MergeEntry(x, e).own, key) == Own(x.own, key)
    ensures e.key != PROTO ==> MergeEntry(x, e).proto == x.proto
  {
    EntryAssigns(x, e);
    DropOwn(x.own, e.key, key);
    if !IsAbsent(e.value) { PutOwn(x.own, e.key, Assigned(x, e).value, key); }
  }

  lemma {:induction false} EntryHere(x: Value, y: Value, e: Entry)
    requires x.Object? && y.Object? && AgreeOn(x, y, e.key)
    ensures MergeEntry(x, e).proto == MergeEntry(y, e).proto
    ensures Own(MergeEntry(x, e).own, e.key) == Own(MergeEntry(y, e).own, e.key)
  {
    EntryAssigns(x, e);
    EntryAssigns(y, e);
    assert Find(x, e.key) == Find(y, e.key);
    hide MergeEntry;
    assert Assigned(x, e) == Assigned(y, e);
    hide Assigned, Current;
    DropOwn(x.own, e.key, e.key);
    DropOwn(y.own, e.key, e.key);
    if !IsAbsent(e.value) {
      PutOwn(x.own, e.key, Assigned(x, e).value, e.key);
      PutOwn(y.own, e.key, Assigned(y, e).value, e.key);
    }
  }

  lemma {:induction false} AgreeStep(x: Value, y: Value, key: string, e: Entry)
    requires x.Object? && y.Object? && AgreeOn(x, y, key)
    ensures e.key == key || e.key == PROTO ==> AgreeOn(MergeEntry(x, e), MergeEntry(y, e), key)
    ensures e.key != key && e.key != PROTO ==> AgreeOn(MergeEntry(x, e), y, key)
  {
    hide MergeEntry;
    EntryElsewhere(x, e, key);
    EntryElsewhere(y, e, key);
    EntryElsewhere(x, e, PROTO);
    EntryElsewhere(y, e, PROTO);
    if e.key == key || e.key == PROTO { EntryHere(x, y, e); }
  }

  lemma {:induction false} AgreeMerge(x: Value, y: Value, key: string, entries: Entries)
    requires x.Object? && y.Object? && AgreeOn(x, y, key)
    ensures AgreeOn(MergeAll(x, entries), MergeAll(y, About(entries, key)), key)
    decreases |entries|
  {
    if entries != [] {
      hide AgreeOn, MergeEntry;
      AgreeStep(x, y, key, entries[0]);
      var about := About(entries[1..], key);
      if entries[0].key == key || entries[0].key == PROTO {
        assert About(entries, key) == [entries[0]] + about;
        AgreeMerge(MergeEntry(x, entries[0]), MergeEntry(y, entries[0]), key, entries[1..]);
      } else {
        assert About(entries, key) == about;
        AgreeMerge(MergeEntry(x, entries[0]), y, key, entries[1..]);
      }
    }
  }

  lemma {:induction false} AgreeLayers(x: Value, y: Value, key: string, layers: seq<Layer>)
    requires x.Object? && y.Object? && AgreeOn(x, y, key)
    ensures AgreeOn(MergeOnto(x, layers), MergeOnto(y, LayersAbout(layers, key)), key)
    decreases |layers|
  {
    if layers != [] {
      hide AgreeOn;
      var about := if layers[0] == None then None else Some(About(layers[0].value, key));
      if layers[0].Some? { AgreeMerge(x, y, key, layers[0].value); }
      assert LayersAbout(layers, key) == [about] + LayersAbout(layers[1..], key);
      AgreeLayers(MergeLayer(x, layers[0]), MergeLayer(y, about), key, layers[1..]);
    }
  }

  /** A key's value depends only on what the layers say about this key and about the prototype, in order. */
  lemma {:induction false} MergeIsKeywise(layers: seq<Layer>, key: string)
    ensures Own(DeepMerge(layers).own, key) == Own(DeepMerge(LayersAbout(layers, key)).own, key)
  {
    AgreeLayers(EMPTY, EMPTY, key, layers);
  }

  lemma {:induction false} OtherKeysKeep(x: Value, entries: Entries, key: string)
    requires x.Object? && Own(entries, key) == None
    ensures Own(MergeAll(x, entries).own, key) == Own(x.own, key)
    decreases |entries|
  {
    if entries != [] {
      EntryElsewhere(x, entries[0], key);
      OtherKeysKeep(MergeEntry(x, entries[0]), entries[1..], key);
    }
  }

  lemma {:induction false} SplitAt(entries: Entries, i: nat)
    requires Distinct(entries) && i < |entries|
    ensures entries == entries[..i] + [entries[i]] + entries[i + 1..]
    ensures Own(entries[..i], entries[i].key) == None && Own(entries[i + 1..], entries[i].key) == None
  {
    var j := OwnIsEntry(entries[..i], entries[i].key);
    var k := OwnIsEntry(entries[i + 1..], entries[i].key);
    if k < |entries| - i - 1 { assert entries[i + 1..][k] == entries[i + 1 + k]; }
  }

  /** What one more layer does to a key. Silence and undefined keep it, null removes it, an
      object on an own object is merged into it, and everything else replaces it, except
      that an object on nothing is merged into a copy of an inherited object. */
  lemma {:induction false} LastLayerRules(layers: seq<Layer>, layer: Entries, key: string)
    requires Distinct(layer) && key != PROTO
    ensures var x := DeepMerge(layers);
            var before, said, after := Own(x.own, key), Own(layer, key), Own(DeepMerge(layers + [Some(layer)]).own, key);
            && (said == None || said == Some(Undefined) ==> after == before)
            && (said == Some(Null) ==> after == None)
            && (said.Some? && said.value.Object? && before.Some? && before.value.Object? ==>
                  after == Some(DeepMerge([Some(before.value.own), Some(said.value.own)])))
            && (said.Some? && !IsAbsent(said.value) && !said.value.Object? ==> after == said)
            && (said.Some? && said.value.Object? && before.Some? && !before.value.Object? ==> after == said)
            && (said.Some? && said.value.Object? && before == None ==>
                  exists i :: 0 <= i < |layer| && layer[i].key == key &&
                    var here := MergeAll(x, layer[..i]);
                    after == if InheritsObject(here, key)
                             then Some(DeepMerge([Some(Find(here.proto.holder, key).value.own), Some(said.value.own)]))
                             else said)
  {
    LastLayer(EMPTY, layers, Some(layer));
    var x := DeepMerge(layers);
    if Own(layer, key) == None {
      OtherKeysKeep(x, layer, key);
    } else {
      var i := OwnIsEntry(layer, key);
      LayerAt(x, layer, i);
    }
  }

  lemma {:induction false} LayerAt(x: Value, layer: Entries, i: nat)
    requires x.Object? && Distinct(layer) && i < |layer| && layer[i].key != PROTO
    ensures var here, e := MergeAll(x, layer[..i]), layer[i];
            && Own(here.own, e.key) == Own(x.own, e.key)
            && Own(MergeAll(x, layer).own, e.key) ==
               if e.value == Null then None
               else if e.value == Undefined then Own(x.own, e.key)
               else if e.value.Object? && Own(x.own, e.key).Some? && Own(x.own, e.key).value.Object?
               then Some(DeepMerge([Some(Own(x.own, e.key).value.own), Some(e.value.own)]))
               else if e.value.Object? && Own(x.own, e.key) == None && InheritsObject(here, e.key)
               then Some(DeepMerge([Some(Find(here.proto.holder, e.key).value.own), Some(e.value.own)]))
               else Some(e.value)
  {
    var here, e := MergeAll(x, layer[..i]), layer[i];
    SplitAt(layer, i);
    MergeAllAppends(x, layer[..i] + [e], layer[i + 1..]);
    MergeAllAppends(x, layer[..i], [e]);
    OneEntry(here, e);
    OtherKeysKeep(x, layer[..i], e.key);
    OtherKeysKeep(MergeEntry(here, e), layer[i + 1..], e.key);
    EntryAssigns(here, e);
    DropOwn(here.own, e.key, e.key);
    if !IsAbsent(e.value) { PutOwn(here.own, e.key, Assigned(here, e).value, e.key); }
    if e.value.Object? && Current(here, e.key).Some? {
      MergeOfOneAndTwo(Current(here, e.key).value.own, e.value.own);
    }
  }

  // ----- applying a layer twice

  lemma {:induction false} EntryChanges(x: Value, e: Entry)
    requires x.Object? && MergeEntry(x, e) != x
    ensures Own(MergeEntry(x, e).own, e.key) != Own(x.own, e.key) || (e.key == PROTO && MergeEntry(x, e).proto != x.proto)
  {
    EntryAssigns(x, e);
    DropOwn(x.own, e.key, e.key);
    if Own(x.own, e.key) == None { DropNone(x.own, e.key); }
    if !IsAbsent(e.value) {
      PutOwn(x.own, e.key, Assigned(x, e).value, e.key);
      if Own(x.own, e.key) == Assigned(x, e) { PutSame(x.own, e.key, Assigned(x, e).value); }
    }
  }

  lemma {:induction false} PrototypeKeeps(x: Value, entries: Entries)
    requires x.Object? && Own(entries, PROTO) == None
    ensures MergeAll(x, entries).proto == x.proto
    decreases |entries|
  {
    if entries != [] {
      EntryElsewhere(x, entries[0], PROTO);
      PrototypeKeeps(MergeEntry(x, entries[0]), entries[1..]);
    }
  }

  /** A source leaves an object alone exactly when each of its entries does. */
  lemma {:induction false} AbsorbedByEntry(x: Value, entries: Entries)
    requires x.Object? && Distinct(entries)
    ensures MergeAll(x, entries) == x <==> forall i :: 0 <= i < |entries| ==> MergeEntry(x, entries[i]) == x
    decreases |entries|
  {
    if entries != [] {
      var e, y := entries[0], MergeEntry(x, entries[0]);
      LaterIsOther(entries);
      if y == x {
        AbsorbedByEntry(x, entries[1..]);
        assert forall i :: 0 <= i < |entries| - 1 ==> entries[1..][i] == entries[i + 1];
        assert forall i :: 0 < i < |entries| ==> entries[i] == entries[1..][i - 1];
      } else {
        EntryChanges(x, e);
        OtherKeysKeep(y, entries[1..], e.key);
        if e.key == PROTO { PrototypeKeeps(y, entries[1..]); }
      }
    }
  }

  lemma {:induction false} DigitsAreDigits(n: nat)
    ensures Digits(n) != "" && '0' <= Digits(n)[0] <= '9'
  {
    if n >= 10 { DigitsAreDigits(n / 10); }
  }

  lemma {:induction false} NoItemIsProto(items: seq<Value>)
    ensures ItemAt(items, PROTO) == None
  {
    if items != [] {
      DigitsAreDigits(|items| - 1);
      assert PROTO[0] == '_';
      NoItemIsProto(items[..|items| - 1]);
    }
  }

  /** A `__proto__` entry, the only one of its source, on an object that has neither such a property nor a prototype. */
  lemma {:induction false} ProtoEntry(x: Value, e: Entry)
    requires x.Object? && x.proto == Standard && Own(x.own, PROTO) == None && e.key == PROTO
    ensures MergeEntry(x, e) ==
      if e.value.Object? then x.(proto := Installed(MergeAll(EMPTY, e.value.own)))
      else if e.value.List? then x.(proto := Installed(e.value)) else x
  {
    EntryAssigns(x, e);
    DropNone(x.own, PROTO);
    CopyOfAbsent([]);
    assert Find(x, PROTO) == None && Current(x, PROTO) == Some(EMPTY);
  }

  lemma {:induction false} CopyFindsNoProto(done: Value, rest: Entries)
    requires done.Object? && Find(done, PROTO) == None && WellFormed(Object(rest, Standard))
    requires done.proto == Standard || Own(rest, PROTO) == None
    ensures Find(MergeAll(done, rest), PROTO) == None
    decreases rest
  {
    if rest != [] {
      var e, next := rest[0], MergeEntry(done, rest[0]);
      LaterIsOther(rest);
      assert forall i :: 0 <= i < |rest| - 1 ==> rest[1..][i] == rest[i + 1];
      if e.key == PROTO {
        ProtoEntry(done, e);
        if e.value.Object? { CopyFindsNoProto(EMPTY, e.value.own); }
        if e.value.List? { NoItemIsProto(e.value.items); }
      } else {
        EntryElsewhere(done, e, PROTO);
      }
      hide MergeEntry;
      CopyFindsNoProto(next, rest[1..]);
    }
  }

  /** No null, undefined or `__proto__` anywhere below this value. */
  ghost predicate DeeplyClean(v: Value) {
    v.Object? ==> (
      && v.proto == Standard
      && forall i :: 0 <= i < |v.own| ==> v.own[i].key != PROTO && !IsAbsent(v.own[i].value) && DeeplyClean(v.own[i].value))
  }

  lemma {:induction false} SelfEntry(v: Value, i: nat)
    requires v.Object? && Distinct(v.own) && i < |v.own| && v.own[i].key != PROTO && !IsAbsent(v.own[i].value)
    ensures var u := v.own[i].value; MergeEntry(v, v.own[i]) == v <==> (u.Object? ==> Merge2(u, u) == u)
  {
    var e := v.own[i];
    EntryIsOwn(v.own, i);
    EntryAssigns(v, e);
    assert Find(v, e.key) == Some(e.value);
    PutOwn(v.own, e.key, Assigned(v, e).value, e.key);
    if Assigned(v, e) == Some(e.value) { PutSame(v.own, e.key, e.value); }
  }

  /** An object merged with itself gives itself back exactly when it is deeply clean. */
  lemma {:induction false} SelfMergeOfObject(v: Value)
    requires v.Object? && WellFormed(v)
    ensures Merge2(v, v) == v <==> DeeplyClean(v)
    decreases v
  {
    var copy, own := MergeAll(EMPTY, v.own), v.own;
    MergeKeepsTidy(EMPTY, own);
    MergeKeepsTidy(copy, own);
    CopyFindsNoProto(EMPTY, own);
    CopyHasNoProto(EMPTY, own);
    CopyHasNoProto(copy, own);
    if Own(own, PROTO).Some? {
      var i := OwnIsEntry(own, PROTO);
      assert own[i].key == PROTO;
    } else if Tidy(own) {
      CopyOfResult(own);
      PrototypeKeeps(copy, own);
      if v.proto == Standard { SelfMergeByEntry(v); }
    }
  }

  lemma {:induction false} SelfMergeByEntry(v: Value)
    requires v.Object? && WellFormed(v) && v.proto == Standard && Tidy(v.own) && Own(v.own, PROTO) == None
    ensures MergeAll(v, v.own) == v <==> DeeplyClean(v)
    decreases v, 0
  {
    AbsorbedByEntry(v, v.own);
    var _ := OwnIsEntry(v.own, PROTO);
    forall i | 0 <= i < |v.own| ensures MergeEntry(v, v.own[i]) == v <==> DeeplyClean(v.own[i].value) {
      SelfEntry(v, i);
      if v.own[i].value.Object? { SelfMergeOfObject(v.own[i].value); }
    }
  }

  /** Merging an object value once more into what is read at its key changes nothing. */
  ghost predicate Absorbs(x: Value, e: Entry)
    requires x.Object? && e.value.Object?
  {
    var c := Current(x, e.key);
    c.Some? && Merge2(c.value, e.value) == c.value
  }

  /** What an entry of a single layer became. */
  lemma {:induction false} EntryOfLayer(layer: Entries, i: nat)
    requires WellFormed(Object(layer, Standard)) && i < |layer|
    ensures var x, e := MergeAll(EMPTY, layer), layer[i]; MergeEntry(x, e) == x <==> (e.value.Object? ==> Absorbs(x, e))
  {
    CopyFindsNoProto(EMPTY, layer);
    if layer[i].key == PROTO {
      ProtoOfLayer(layer, i);
      ProtoAgain(MergeAll(EMPTY, layer), layer[i]);
    } else {
      LayerAt(EMPTY, layer, i);
      OwnAgain(MergeAll(EMPTY, layer), layer[i]);
    }
  }

  lemma {:induction false} ProtoAgain(x: Value, e: Entry)
    requires x.Object? && e.key == PROTO && Find(x, PROTO) == None
    requires e.value.Object? ==> x.proto.Installed? && x.proto.holder.Object?
    requires e.value.List? ==> x.proto == Installed(e.value)
    ensures MergeEntry(x, e) == x <==> (e.value.Object? ==> Absorbs(x, e))
  {
    EntryAssigns(x, e);
    DropNone(x.own, PROTO);
    if e.value.Object? { assert Current(x, PROTO) == Some(x.proto.holder); }
  }

  lemma {:induction false} OwnAgain(x: Value, e: Entry)
    requires x.Object? && e.key != PROTO
    requires e.value == Null ==> Own(x.own, e.key) == None
    requires e.value.Object? ==> Own(x.own, e.key).Some? && Own(x.own, e.key).value.Object?
    requires e.value.Leaf? || e.value.List? ==> Own(x.own, e.key) == Some(e.value)
    ensures MergeEntry(x, e) == x <==> (e.value.Object? ==> Absorbs(x, e))
  {
    EntryAssigns(x, e);
    if e.value == Null { DropNone(x.own, e.key); }
    if e.value.Object? { assert Current(x, e.key) == Own(x.own, e.key); }
    hide MergeEntry, Assigned, Current;
    if !IsAbsent(e.value) {
      PutOwn(x.own, e.key, Assigned(x, e).value, e.key);
      if Own(x.own, e.key) == Assigned(x, e) { PutSame(x.own, e.key, Assigned(x, e).value); }
    }
  }

  lemma {:induction false} ProtoOfLayer(layer: Entries, i: nat)
    requires WellFormed(Object(layer, Standard)) && i < |layer| && layer[i].key == PROTO
    ensures MergeAll(EMPTY, layer).proto ==
      if layer[i].value.Object? then Installed(MergeAll(EMPTY, layer[i].value.own))
      else if layer[i].value.List? then Installed(layer[i].value) else Standard
  {
    var here, e := MergeAll(EMPTY, layer[..i]), layer[i];
    SplitAt(layer, i);
    MergeAllAppends(EMPTY, layer[..i] + [e], layer[i + 1..]);
    MergeAllAppends(EMPTY, layer[..i], [e]);
    OneEntry(here, e);
    PrototypeKeeps(EMPTY, layer[..i]);
    OtherKeysKeep(EMPTY, layer[..i], PROTO);
    ProtoEntry(here, e);
    PrototypeKeeps(MergeEntry(here, e), layer[i + 1..]);
  }

  /** Applying a layer twice is applying it once exactly when merging each of its object
      values once more into what it became changes nothing; without prototypes, exactly
      when these objects are deeply clean. */
  lemma {:induction false} RepeatingALayer(layer: Entries)
    requires WellFormed(Object(layer, Standard))
    ensures DeepMerge([Some(layer), Some(layer)]) == DeepMerge([Some(layer)]) <==>
            forall i :: 0 <= i < |layer| && layer[i].value.Object? ==> Absorbs(DeepMerge([Some(layer)]), layer[i])
    ensures NoPrototype([Some(layer)]) ==>
            (DeepMerge([Some(layer), Some(layer)]) == DeepMerge([Some(layer)]) <==>
             forall i :: 0 <= i < |layer| ==> DeeplyClean(layer[i].value))
  {
    MergeOfOneAndTwo(layer, layer);
    var x := MergeAll(EMPTY, layer);
    AbsorbedByEntry(x, layer);
    forall i | 0 <= i < |layer|
      ensures MergeEntry(x, layer[i]) == x <==> (layer[i].value.Object? ==> Absorbs(x, layer[i]))
      ensures NoPrototype([Some(layer)]) ==> (MergeEntry(x, layer[i]) == x <==> DeeplyClean(layer[i].value))
    {
      EntryOfLayer(layer, i);
      if NoPrototype([Some(layer)]) && layer[i].value.Object? { TakenAsItIs(layer, i); }
    }
  }

  lemma {:induction false} TakenAsItIs(layer: Entries, i: nat)
    requires WellFormed(Object(layer, Standard)) && NoPrototype([Some(layer)]) && i < |layer| && layer[i].value.Object?
    ensures var c, v := Current(MergeAll(EMPTY, layer), layer[i].key), layer[i].value;
            c == Some(v) && (Merge2(v, v) == v <==> DeeplyClean(v))
  {
    assert [Some(layer)][0] == Some(layer) && KeepsPrototype(layer[i]);
    assert forall j :: 0 <= j < i ==> layer[..i][j] == layer[j];
    PlainMerge(EMPTY, layer[..i]);
    LayerAt(EMPTY, layer, i);
    SelfMergeOfObject(layer[i].value);
  }

  lemma {:induction false} NullActsOnRepeat(layer: Entries, e: Entry)
    requires layer == [e] && e == Entry("a", Object([Entry("b", Null)], Standard))
    ensures MergeAll(Object(layer, Standard), layer).own == [Entry("a", EMPTY)]
  {
    var x := Object(layer, Standard);
    OneEntry(x, e);
    EntryAssigns(x, e);
    CopyOfAbsent(e.value.own);
    hide MergeAll, MergeEntry, Assigned;
    assert "a" != PROTO && Find(x, "a") == Some(e.value);
    assert Put(layer, "a", EMPTY) == [Entry("a", EMPTY)];
  }

  /** The second copy of such a layer takes away a key the first one left: {a: {b: null}}. */
  lemma {:induction false} HiddenNullActsOnRepeat() returns (layer: Entries)
    ensures layer == [Entry("a", Object([Entry("b", Null)], Standard))]
    ensures DeepMerge([Some(layer)]).own == layer
    ensures DeepMerge([Some(layer), Some(layer)]).own == [Entry("a", EMPTY)]
  {
    layer := [Entry("a", Object([Entry("b", Null)], Standard))];
    assert "a" != PROTO;
    MergeOfOneAndTwo(layer, layer);
    CopyOfResult(layer);
    hide DeepMerge, MergeAll;
    NullActsOnRepeat(layer, layer[0]);
  }

  // ----- the merge as a program

  function LayersDepth(layers: seq<Layer>): (r: nat)
    ensures r >= 1
  {
    if layers == [] then 1
    else Max(if layers[0] == None then 0 else 1 + EntriesDepth(layers[0].value), LayersDepth(layers[1..]))
  }

  lemma {:induction false} LayerDepth(layers: seq<Layer>, i: nat)
    requires i < |layers| && layers[i].Some?
    ensures 1 + EntriesDepth(layers[i].value) <= LayersDepth(layers)
    decreases i
  {
    if i > 0 { LayerDepth(layers[1..], i - 1); }
  }

  lemma {:induction false} TwoLayersDepth(a: Entries, b: Entries)
    ensures LayersDepth([Some(a), Some(b)]) == Max(1 + EntriesDepth(a), 1 + EntriesDepth(b))
  {
    assert [Some(a), Some(b)][1..] == [Some(b)] && [Some(b)][1..] == [];
    assert LayersDepth([]) == 1 && LayersDepth([Some(b)]) == Max(1 + EntriesDepth(b), 1);
  }

  /** The recursive call of `deepMerge`. */
  method MergeObjects(current: Value, value: Value) returns (r: Value)
    requires current.Object? && value.Object?
    ensures r == Merge2(current, value)
    decreases Max(Depth(current), Depth(value)), 3
  {
    TwoLayersDepth(current.own, value.own);
    PrototypeDepth(current);
    PrototypeDepth(value);
    MergeOfOneAndTwo(current.own, value.own);
    r := DeepMergeLayers([Some(current.own), Some(value.own)]);
  }

  /** One turn of the inner loop of `deepMerge`. */
  method MergeOne(result: Value, e: Entry) returns (r: Value)
    requires result.Object?
    ensures r == MergeEntry(result, e)
    decreases Max(Depth(result), 1 + Depth(e.value)), 0
  {
    EntryAssigns(result, e);
    if e.value == Null {
      r := result.(own := Drop(result.own, e.key));
    } else if e.value == Undefined {
      r := result;
    } else {
      var current, value := Current(result, e.key), e.value;
      if e.value.Object? && current.Some? {
        CurrentIsNested(result, e);
        value := MergeObjects(current.value, e.value);
      }
      r := Assign(result, e.key, value);
    }
  }

  /** The inner loop of `deepMerge` over one source. */
  method MergeSource(result: Value, source: Entries) returns (r: Value)
    requires result.Object?
    ensures r == MergeAll(result, source)
    decreases Max(Depth(result), 1 + EntriesDepth(source)), 1
  {
    hide Depth, EntriesDepth;
    r := result;
    var i := 0;
    assert source[0..] == source;
    while i < |source|
      invariant 0 <= i <= |source| && r.Object? && MergeAll(r, source[i..]) == MergeAll(result, source)
      invariant Depth(r) <= Max(Depth(result), 1 + EntriesDepth(source)) && EntriesDepth(source[i..]) <= EntriesDepth(source)
    {
      assert source[i..][0] == source[i] && source[i..][1..] == source[i + 1..];
      StepIsBounded(Depth(r), Depth(r), source[i..]);
      r := MergeOne(r, source[i]);
      i := i + 1;
    }
    assert source[|source|..] == [];
  }

  method DeepMergeLayers(layers: seq<Layer>) returns (result: Value)
    ensures result == DeepMerge(layers)
    decreases LayersDepth(layers), 2
  {
    result := EMPTY;
    assert layers[..0] == [] && Depth(EMPTY) == 1;
    for i := 0 to |layers|
      invariant result.Object? && result == MergeOnto(EMPTY, layers[..i]) && Depth(result) <= LayersDepth(layers)
    {
      assert layers[..i + 1] == layers[..i] + [layers[i]];
      LastLayer(EMPTY, layers[..i], layers[i]);
      if layers[i].Some? {
        LayerDepth(layers, i);
        result := MergeSource(result, layers[i].value);
      }
    }
    assert layers[..|layers|] == layers;
  }

  // ----- the resolver

  /** Layers merged one at a time, each with `deepMerge` onto the object before. */
  function Stepwise(layers: seq<Layer>): (r: Value)
    ensures r.Object?
  {
    if layers == [] then EMPTY
    else DeepMerge([Some(Stepwise(layers[..|layers| - 1]).own), layers[|layers| - 1]])
  }

  lemma {:induction false} StepwiseAppends(layers: seq<Layer>, layer: Layer)
    ensures Stepwise(layers + [layer]) == DeepMerge([Some(Stepwise(layers).own), layer])
  {
    assert (layers + [layer])[..|layers|] == layers;
  }

  /** No result on the way leaves anything inherited that a later layer could meet. */
  predicate NeutralOnTheWay(layers: seq<Layer>) {
    forall i :: 0 < i < |layers| ==> Neutral(DeepMerge(layers[..i]))
  }

  /** Merging layer by layer is one merge of all layers when nothing is inherited on the way. */
  lemma {:induction false} StepwiseIsOneMerge(layers: seq<Layer>)
    requires WellFormedLayers(layers) && NeutralOnTheWay(layers)
    ensures Stepwise(layers).own == DeepMerge(layers).own
  {
    if layers != [] {
      var before, last := layers[..|layers| - 1], layers[|layers| - 1];
      assert layers == before + [last];
      forall i | 0 < i < |before| ensures Neutral(DeepMerge(before[..i])) { assert before[..i] == layers[..i]; }
      StepwiseIsOneMerge(before);
      assert Neutral(DeepMerge(before));
      PrefixCanBeMergedFirst(before);
      assert [Some(DeepMerge(before).own)] + [last] == [Some(DeepMerge(before).own), last];
    }
  }

  /** Layers that set no prototype are neutral on the way. */
  lemma {:induction false} NoPrototypeIsNeutral(layers: seq<Layer>)
    requires NoPrototype(layers)
    ensures NeutralOnTheWay(layers)
  {
    forall i | 0 < i < |layers| ensures Neutral(DeepMerge(layers[..i])) {
      assert forall j :: 0 <= j < i ==> layers[..i][j] == layers[j];
      PlainLayers(EMPTY, layers[..i]);
    }
  }

  lemma {:induction false} StepwiseOwn(layers: seq<Layer>)
    requires WellFormedLayers(layers)
    ensures Tidy(Stepwise(layers).own) && Own(Stepwise(layers).own, PROTO) == None
  {
    if layers != [] {
      var before, last := layers[..|layers| - 1], layers[|layers| - 1];
      StepwiseOwn(before);
      var own := Stepwise(before).own;
      CopyOfResult(own);
      OneLayer(EMPTY, Some(own));
      LastLayer(EMPTY, [Some(own)], last);
      assert [Some(own)] + [last] == [Some(own), last];
      if last.Some? {
        assert WellFormed(Object(last.value, Standard));
        MergeKeepsTidy(Object(own, Standard), last.value);
        CopyHasNoProto(Object(own, Standard), last.value);
      }
    }
  }

  /** The layer says something about the key; undefined says nothing. */
  predicate Speaks(layer: Layer, key: string) {
    layer.Some? && Own(layer.value, key).Some? && Own(layer.value, key).value != Undefined
  }

  /** What the layer says with a null, a scalar or an array holds in the result, for every
      key about which no later layer speaks. */
  ghost predicate Rules(result: Value, said: Layer, later: seq<Layer>)
    requires result.Object?
  {
    forall key :: key != PROTO && Speaks(said, key) && !Own(said.value, key).value.Object? && Quiet(later, key) ==>
      Own(result.own, key) == if Own(said.value, key).value == Null then None else Own(said.value, key)
  }

  predicate Quiet(layers: seq<Layer>, key: string) {
    forall i :: 0 <= i < |layers| ==> !Speaks(layers[i], key)
  }

  lemma {:induction false} StepSays(layers: seq<Layer>, layer: Layer, key: string)
    requires WellFormedLayers(layers) && WellFormedLayers([layer]) && key != PROTO
    ensures var before, after := Own(Stepwise(layers).own, key), Own(Stepwise(layers + [layer]).own, key);
            && (!Speaks(layer, key) ==> after == before)
            && (Speaks(layer, key) && !Own(layer.value, key).value.Object? ==>
                  after == if Own(layer.value, key).value == Null then None else Own(layer.value, key))
  {
    var own := Stepwise(layers).own;
    StepwiseOwn(layers);
    StepwiseAppends(layers, layer);
    CopyOfResult(own);
    OneLayer(EMPTY, Some(own));
    assert [Some(own)] + [layer] == [Some(own), layer];
    if layer == None {
      LastLayer(EMPTY, [Some(own)], None);
    } else {
      assert [layer][0] == layer && WellFormed(Object(layer.value, Standard));
      LastLayerRules([Some(own)], layer.value, key);
    }
  }

  lemma {:induction false} LastWordRules(before: seq<Layer>, said: Layer, later: seq<Layer>)
    requires WellFormedLayers(before + [said] + later)
    ensures Rules(Stepwise(before + [said] + later), said, later)
  {
    forall key | key != PROTO && Speaks(said, key) && !Own(said.value, key).value.Object? && Quiet(later, key)
      ensures Own(Stepwise(before + [said] + later).own, key) == if Own(said.value, key).value == Null then None else Own(said.value, key)
    {
      LastWordIs(before, said, later, key);
    }
  }

  lemma {:induction false} LastWordIs(before: seq<Layer>, said: Layer, later: seq<Layer>, key: string)
    requires WellFormedLayers(before + [said] + later)
    requires key != PROTO && Speaks(said, key) && !Own(said.value, key).value.Object? && Quiet(later, key)
    ensures Own(Stepwise(before + [said] + later).own, key) == if Own(said.value, key).value == Null then None else Own(said.value, key)
    decreases |later|
  {
    var all := before + [said] + later;
    hide Stepwise, WellFormed, Speaks;
    if later == [] {
      assert all == before + [said];
      PartsAreWellFormed(before, said);
      StepSays(before, said, key);
    } else {
      var n := |later| - 1;
      assert all == (before + [said] + later[..n]) + [later[n]];
      PartsAreWellFormed(before + [said] + later[..n], later[n]);
      LastWordIs(before, said, later[..n], key);
      StepSays(before + [said] + later[..n], later[n], key);
    }
  }

  lemma {:induction false} LayersRule(before: seq<Layer>, said: Layer, later: seq<Layer>, all: seq<Layer>)
    requires all == before + [said] + later && WellFormedLayers(all)
    ensures Rules(Stepwise(all), said, later)
  {
    LastWordRules(before, said, later);
  }

  lemma {:induction false} PartsAreWellFormed(layers: seq<Layer>, layer: Layer)
    requires WellFormedLayers(layers + [layer])
    ensures WellFormedLayers(layers) && WellFormedLayers([layer])
  {
    hide WellFormed;
    assert forall i :: 0 <= i < |layers| ==> (layers + [layer])[i] == layers[i];
    assert (layers + [layer])[|layers|] == layer;
  }

  lemma {:induction false} StepwiseFrom(a: seq<Layer>, b: seq<Layer>, rest: seq<Layer>)
    requires Stepwise(a).own == Stepwise(b).own
    ensures Stepwise(a + rest).own == Stepwise(b + rest).own
  {
    hide Stepwise, DeepMerge;
    if rest == [] {
      assert a + rest == a && b + rest == b;
    } else {
      var before, last := rest[..|rest| - 1], rest[|rest| - 1];
      StepwiseFrom(a, b, before);
      StepwiseAppends(a + before, last);
      StepwiseAppends(b + before, last);
      assert a + rest == (a + before) + [last] && b + rest == (b + before) + [last];
    }
  }

  /** An empty layer changes no own entry of a stepwise merge. */
  lemma {:induction false} EmptyLayerSteps(layers: seq<Layer>, rest: seq<Layer>)
    requires WellFormedLayers(layers)
    ensures Stepwise(layers + rest).own == Stepwise(layers + [Some([])] + rest).own
  {
    var own := Stepwise(layers).own;
    StepwiseOwn(layers);
    StepwiseAppends(layers, Some([]));
    MergeOfOneAndTwo(own, []);
    CopyOfResult(own);
    StepwiseFrom(layers, layers + [Some([])], rest);
  }

  /** An empty object in place of a missing file layer changes no own entry. */
  lemma {:induction false} GlobalMayBeEmpty(defaults: Entries, file: Option<Entries>, rest: seq<Layer>)
    requires WellFormed(Object(defaults, Standard))
    ensures Stepwise([Some(defaults), Some(if file == None then [] else file.value)] + rest).own
         == Stepwise([Some(defaults)] + (if file == None then [] else [file]) + rest).own
  {
    hide Stepwise, WellFormed;
    if file == None {
      assert WellFormedLayers([Some(defaults)]);
      EmptyLayerSteps([Some(defaults)], rest);
      assert [Some(defaults), Some([])] + rest == [Some(defaults)] + [Some([])] + rest;
      assert [Some(defaults)] + [] == [Some(defaults)];
    } else {
      assert [Some(defaults), Some(file.value)] == [Some(defaults)] + [file];
    }
  }

  /** A stored profile: its text may not be JSON, and its JSON may be null. */
  datatype Profile = InvalidJson | Parsed(layer: Layer)

  datatype Cascade = Cascade(defaults: Entries, global: Entries, host: Option<Layer>, channel: Option<Layer>, resolved: Value)

  /** The layer a stored profile contributes; an empty id, a missing row and invalid JSON contribute none. */
  function ProfileLayer(stored: map<string, Profile>, id: Option<string>): seq<Layer> {
    if id == None || id.value == "" || id.value !in stored || stored[id.value].InvalidJson? then []
    else [stored[id.value].layer]
  }

  /** The stored profile with this id is this object. */
  predicate Holds(stored: map<string, Profile>, id: Option<string>, layer: Entries) {
    id.Some? && id.value != "" && id.value in stored && stored[id.value] == Parsed(Some(layer))
  }

  function Optional(layer: Option<Layer>): seq<Layer> {
    if layer == None then [] else [layer.value]
  }

  class ConfigResolver {
    const defaults: Entries
    var fileConfig: Option<Entries>
    var agentHints: map<string, Entries>
    var hosts: map<string, Profile>
    var channels: map<string, Profile>

    constructor (defaults: Entries)
      ensures this.defaults == defaults && fileConfig == None && agentHints == map[]
    {
      this.defaults := defaults;
      fileConfig, agentHints, hosts, channels := None, map[], map[], map[];
    }

    ghost function HintLayer(session: Option<string>): seq<Layer>
      reads this
    {
      if session == None || session.value == "" || session.value !in agentHints then [] else [Some(agentHints[session.value])]
    }

    ghost function FileLayer(): seq<Layer>
      reads this
    {
      if fileConfig == None then [] else [fileConfig]
    }

    /** Defaults, config.toml, host, agent hints, channel: later layers win. */
    ghost function LayersFor(host: Option<string>, channel: Option<string>, session: Option<string>): seq<Layer>
      reads this
    {
      [Some(defaults)] + FileLayer() + ProfileLayer(hosts, host) + HintLayer(session) + ProfileLayer(channels, channel)
    }

    /** The channel profile has the last word, then the agent's hints, the host profile, the
        file and the defaults. */
    ghost predicate Precedence(profile: Value, host: Option<string>, channel: Option<string>, session: Option<string>)
      requires profile.Object?
      reads this
    {
      var channelLayer, hostLayer := ProfileLayer(channels, channel), ProfileLayer(hosts, host);
      var hints := HintLayer(session) + channelLayer;
      && (forall layer :: Holds(channels, channel, layer) ==> Rules(profile, Some(layer), []))
      && (session.Some? && session.value != "" && session.value in agentHints ==>
            Rules(profile, Some(agentHints[session.value]), channelLayer))
      && (forall layer :: Holds(hosts, host, layer) ==> Rules(profile, Some(layer), hints))
      && (fileConfig.Some? ==> Rules(profile, fileConfig, hostLayer + hints))
      && Rules(profile, Some(defaults), FileLayer() + (hostLayer + hints))
    }

    lemma {:induction false} PrecedenceHolds(host: Option<string>, channel: Option<string>, session: Option<string>)
      requires WellFormedLayers(LayersFor(host, channel, session))
      ensures Precedence(Stepwise(LayersFor(host, channel, session)), host, channel, session)
    {
      hide Stepwise, Rules, WellFormedLayers;
      var all := LayersFor(host, channel, session);
      var channelLayer, hostLayer := ProfileLayer(channels, channel), ProfileLayer(hosts, host);
      var hints := HintLayer(session) + channelLayer;
      var base := [Some(defaults)] + FileLayer();
      LayersRule([], Some(defaults), FileLayer() + (hostLayer + hints), all);
      if fileConfig.Some? { LayersRule([Some(defaults)], fileConfig, hostLayer + hints, all); }
      forall layer | Holds(hosts, host, layer) ensures Rules(Stepwise(all), Some(layer), hints) {
        LayersRule(base, Some(layer), hints, all);
      }
      if session.Some? && session.value != "" && session.value in agentHints {
        LayersRule(base + hostLayer, Some(agentHints[session.value]), channelLayer, all);
      }
      forall layer | Holds(channels, channel, layer) ensures Rules(Stepwise(all), Some(layer), []) {
        LayersRule(base + hostLayer + HintLayer(session), Some(layer), [], all);
      }
    }

    /** Resolving merges layer by layer. It is one merge of all layers when nothing is inherited on the way. */
    method Resolve(host: Option<string>, channel: Option<string>, session: Option<string>) returns (profile: Value)
      ensures profile == Stepwise(LayersFor(host, channel, session))
      ensures WellFormedLayers(LayersFor(host, channel, session)) && NeutralOnTheWay(LayersFor(host, channel, session)) ==>
        profile.own == DeepMerge(LayersFor(host, channel, session)).own
      ensures WellFormedLayers(LayersFor(host, channel, session)) ==> Precedence(profile, host, channel, session)
    {
      hide DeepMerge, Stepwise, Neutral, Precedence;
      ghost var merged: seq<Layer> := [Some(defaults)];
      profile := DeepMergeLayers([Some(defaults)]);
      FirstStep(Some(defaults));
      if fileConfig.Some? {
        StepwiseAppends(merged, fileConfig);
        profile := DeepMergeLayers([Some(profile.own), fileConfig]);
      }
      assert merged + [] == merged;
      merged := merged + FileLayer();
      profile := Overlay(profile, merged, hosts, host);
      merged := merged + ProfileLayer(hosts, host);
      if session.Some? && session.value != "" && session.value in agentHints {
        StepwiseAppends(merged, Some(agentHints[session.value]));
        profile := DeepMergeLayers([Some(profile.own), Some(agentHints[session.value])]);
      }
      assert merged + [] == merged;
      merged := merged + HintLayer(session);
      profile := Overlay(profile, merged, channels, channel);
      merged := merged + ProfileLayer(channels, channel);
      if WellFormedLayers(merged) && NeutralOnTheWay(merged) { StepwiseIsOneMerge(merged); }
      if WellFormedLayers(merged) { PrecedenceHolds(host, channel, session); }
    }

    static method Overlay(profile: Value, ghost merged: seq<Layer>, stored: map<string, Profile>, id: Option<string>) returns (r: Value)
      requires profile == Stepwise(merged)
      ensures r == Stepwise(merged + ProfileLayer(stored, id))
    {
      assert merged + [] == merged;
      if id == None || id.value == "" || id.value !in stored || stored[id.value].InvalidJson? { return profile; }
      StepwiseAppends(merged, stored[id.value].layer);
      r := DeepMergeLayers([Some(profile.own), stored[id.value].layer]);
    }

    /** The layers shown to the settings panel give the resolved profile when they are merged
        one by one, and in one merge when nothing is inherited on the way; agent hints are in neither. */
    method GetCascade(host: Option<string>, channel: Option<string>) returns (c: Cascade)
      ensures c.defaults == defaults && c.global == (if fileConfig == None then [] else fileConfig.value)
      ensures Optional(c.host) == ProfileLayer(hosts, host) && Optional(c.channel) == ProfileLayer(channels, channel)
      ensures c.resolved == Stepwise(LayersFor(host, channel, None))
      ensures WellFormed(Object(defaults, Standard)) ==>
        c.resolved.own == Stepwise([Some(c.defaults), Some(c.global)] + Optional(c.host) + Optional(c.channel)).own
      ensures var shown := [Some(c.defaults), Some(c.global)] + Optional(c.host) + Optional(c.channel);
        WellFormedLayers(shown) && NeutralOnTheWay(shown) ==> c.resolved.own == DeepMerge(shown).own
    {
      hide DeepMerge, Stepwise, NeutralOnTheWay, WellFormed;
      var global := if fileConfig == None then [] else fileConfig.value;
      var hostLayer := Shown(hosts, host);
      var channelLayer := Shown(channels, channel);
      var resolved := Resolve(host, channel, None);
      c := Cascade(defaults, global, hostLayer, channelLayer, resolved);
      ghost var rest := ProfileLayer(hosts, host) + ProfileLayer(channels, channel);
      ghost var shown := [Some(c.defaults), Some(c.global)] + Optional(c.host) + Optional(c.channel);
      assert shown == [Some(defaults), Some(global)] + rest;
      assert LayersFor(host, channel, None) == [Some(defaults)] + FileLayer() + rest;
      if WellFormed(Object(defaults, Standard)) { GlobalMayBeEmpty(defaults, fileConfig, rest); }
      if WellFormedLayers(shown) && NeutralOnTheWay(shown) {
        assert shown[0] == Some(defaults);
        StepwiseIsOneMerge(shown);
      }
    }

    static method Shown(stored: map<string, Profile>, id: Option<string>) returns (layer: Option<Layer>)
      ensures Optional(layer) == ProfileLayer(stored, id)
    {
      if id.Some? && id.value != "" && id.value in stored && stored[id.value].Parsed? {
        layer := Some(stored[id.value].layer);
      } else {
        layer := None;
      }
    }
  }

  lemma {:induction false} FirstStep(layer: Layer)
    ensures DeepMerge([layer]) == Stepwise([layer])
  {
    StepwiseAppends([], layer);
    assert [] + [layer] == [layer];
    assert Stepwise([]) == EMPTY;
    OneLayer(EMPTY, layer);
    OneLayer(EMPTY, Some([]));
    LastLayer(EMPTY, [Some([])], layer);
    assert [Some([])] + [layer] == [Some([]), layer];
  }

  /** The resolver at the failing input: defaults without entries, the inheriting host and the channel. */
  lemma {:induction false} ResolvingLosesAnEntry()
    ensures Stepwise([Some([]), Some(INHERITING_HOST), Some(CHANNEL)]).own == CHANNEL
    ensures DeepMerge([Some([]), Some(INHERITING_HOST), Some(CHANNEL)]).own != CHANNEL
  {
    var defaults: seq<Layer> := [Some([])];
    FirstStep(Some([]));
    OneLayer(EMPTY, Some([]));
    StepwiseAppends(defaults, Some(INHERITING_HOST));
    StepwiseAppends(defaults + [Some(INHERITING_HOST)], Some(CHANNEL));
    assert defaults + [Some(INHERITING_HOST)] + [Some(CHANNEL)] == [Some([]), Some(INHERITING_HOST), Some(CHANNEL)];
    MergingTheHostFirstLosesAnEntry();
    MergeOfOneAndTwo([], INHERITING_HOST);
    OneLayer(EMPTY, Some(INHERITING_HOST));
    MergeOntoAppends(EMPTY, defaults, [Some(INHERITING_HOST), Some(CHANNEL)]);
    assert defaults + [Some(INHERITING_HOST), Some(CHANNEL)] == [Some([]), Some(INHERITING_HOST), Some(CHANNEL)];
    hide DeepMerge, Stepwise;
    assert CHANNEL[0].value.own != [Entry("p", Leaf("1")), Entry("q", Leaf("2"))];
  }
}