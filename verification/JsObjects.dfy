/**
 JavaScript objects as `deepMerge` meets them: own entries, in order, and a prototype.
 In parsed JSON `__proto__` is an ordinary key, but assigning to this key of an object
 sets the object's prototype, and what a prototype holds is read like an own value.
 */
module JsObjects {
  import opened Prelude

  datatype Value =
    | Null
    | Undefined
    | Leaf(text: string)
    | List(items: seq<Value>)
    | Object(own: Entries, proto: Proto)

  datatype Entry = Entry(key: string, value: Value)

  type Entries = seq<Entry>

  /** `Object.prototype`, which holds nothing that matters here, or an object or array put in its place. */
  datatype Proto = Standard | Installed(holder: Value)

  const PROTO := "__proto__"

  const EMPTY := Object([], Standard)

  // ----- nesting, for termination

  function Max(a: nat, b: nat): nat { if a < b then b else a }

  function Depth(v: Value): nat {
    match v
    case List(items) => 1 + ItemsDepth(items)
    case Object(own, proto) => 1 + Max(EntriesDepth(own), if proto.Installed? then Depth(proto.holder) else 0)
    case _ => 0
  }

  function ItemsDepth(items: seq<Value>): nat {
    if items == [] then 0 else Max(ItemsDepth(items[..|items| - 1]), Depth(items[|items| - 1]))
  }

  function EntriesDepth(entries: Entries): nat {
    if entries == [] then 0 else Max(Depth(entries[0].value), EntriesDepth(entries[1..]))
  }

  // ----- objects

  predicate IsAbsent(v: Value) { v == Null || v == Undefined }

  function Own(entries: Entries, key: string): (r: Option<Value>)
    ensures r.Some? ==> Depth(r.value) <= EntriesDepth(entries)
  {
    if entries == [] then None
    else if entries[0].key == key then Some(entries[0].value) else Own(entries[1..], key)
  }

  /** Set an own property: in place when it exists, else at the end. */
  function Put(entries: Entries, key: string, value: Value): (r: Entries)
    ensures EntriesDepth(r) <= Max(EntriesDepth(entries), Depth(value))
  {
    if entries == [] then [Entry(key, value)]
    else if entries[0].key == key then [Entry(key, value)] + entries[1..]
    else [entries[0]] + Put(entries[1..], key, value)
  }

  function Drop(entries: Entries, key: string): (r: Entries)
    ensures EntriesDepth(r) <= EntriesDepth(entries)
  {
    if entries == [] then []
    else if entries[0].key == key then Drop(entries[1..], key) else [entries[0]] + Drop(entries[1..], key)
  }

  function Digits(n: nat): string {
    (if n < 10 then "" else Digits(n / 10)) + [(48 + n % 10) as char]
  }

  /** An array element by its index written in decimal. */
  function ItemAt(items: seq<Value>, key: string): (r: Option<Value>)
    ensures r.Some? ==> Depth(r.value) <= ItemsDepth(items)
  {
    if items == [] then None
    else if key == Digits(|items| - 1) then Some(items[|items| - 1]) else ItemAt(items[..|items| - 1], key)
  }

  /** A property along the prototype chain. */
  function Find(v: Value, key: string): (r: Option<Value>)
    ensures r.Some? ==> Depth(r.value) < Depth(v)
  {
    match v
    case List(items) => ItemAt(items, key)
    case Object(own, proto) =>
      if Own(own, key).Some? then Own(own, key)
      else if proto.Installed? then Find(proto.holder, key) else None
    case _ => None
  }

  function ItemKeys(items: seq<Value>): seq<string> {
    if items == [] then [] else ItemKeys(items[..|items| - 1]) + [Digits(|items| - 1)]
  }

  function EntryKeys(entries: Entries): seq<string> {
    if entries == [] then [] else [entries[0].key] + EntryKeys(entries[1..])
  }

  /** The keys along the prototype chain. */
  function KeysOnChain(v: Value): seq<string> {
    match v
    case List(items) => ItemKeys(items)
    case Object(own, proto) => EntryKeys(own) + if proto.Installed? then KeysOnChain(proto.holder) else []
    case _ => []
  }

  lemma {:induction false} OwnIsListed(entries: Entries, key: string)
    ensures Own(entries, key).Some? ==> key in EntryKeys(entries)
  {
    if entries != [] { OwnIsListed(entries[1..], key); }
  }

  lemma {:induction false} ItemIsListed(items: seq<Value>, key: string)
    ensures ItemAt(items, key).Some? ==> key in ItemKeys(items)
  {
    if items != [] { ItemIsListed(items[..|items| - 1], key); }
  }

  lemma {:induction false} FoundIsOnChain(v: Value, key: string)
    ensures Find(v, key).Some? ==> key in KeysOnChain(v)
  {
    match v {
      case List(items) => ItemIsListed(items, key);
      case Object(own, proto) =>
        OwnIsListed(own, key);
        if proto.Installed? { FoundIsOnChain(proto.holder, key); }
      case _ =>
    }
  }

  lemma {:induction false} PrototypeDepth(v: Value)
    requires v.Object?
    ensures Depth(EMPTY) == 1 && Depth(v) >= 1 + EntriesDepth(v.own) && (v.proto.Installed? ==> Depth(v.proto.holder) < Depth(v))
  {
  }

  /** The object behind `__proto__`. */
  function Prototype(v: Value): Value
    requires v.Object?
  {
    if v.proto.Installed? then v.proto.holder else EMPTY
  }

  /** `result[key]`; `__proto__` is the prototype unless a property of this name hides it. */
  function Read(result: Value, key: string): (r: Option<Value>)
    requires result.Object?
    ensures r.Some? ==> Depth(r.value) <= Max(Depth(result) - 1, 1)
  {
    PrototypeDepth(result);
    if Find(result, key).Some? || key != PROTO then Find(result, key) else Some(Prototype(result))
  }

  /** `result[key]` when it is a plain object. */
  function Current(result: Value, key: string): (r: Option<Value>)
    requires result.Object?
    ensures r.Some? ==> r.value.Object? && Depth(r.value) <= Max(Depth(result) - 1, 1)
  {
    PrototypeDepth(result);
    var seen := Read(result, key);
    if seen.Some? && seen.value.Object? then seen else None
  }

  /** `result[key] = value`; `__proto__` sets the prototype unless a property of this name hides it. */
  function Assign(result: Value, key: string, value: Value): (r: Value)
    requires result.Object?
    ensures r.Object? && Depth(r) <= Max(Depth(result), 1 + Depth(value))
  {
    if key != PROTO || Find(result, key).Some? then result.(own := Put(result.own, key, value))
    else if value.Object? || value.List? then result.(proto := Installed(value))
    else result
  }

  // ----- entries

  ghost predicate Distinct(entries: Entries) {
    forall i, j :: 0 <= i < j < |entries| ==> entries[i].key != entries[j].key
  }

  lemma {:induction false} PutOwn(entries: Entries, key: string, value: Value, k: string)
    ensures Own(Put(entries, key, value), k) == if k == key then Some(value) else Own(entries, k)
  {
    if entries != [] { PutOwn(entries[1..], key, value, k); }
  }

  lemma {:induction false} DropOwn(entries: Entries, key: string, k: string)
    ensures Own(Drop(entries, key), k) == if k == key then None else Own(entries, k)
  {
    if entries != [] { DropOwn(entries[1..], key, k); }
  }

  lemma {:induction false} OwnIsEntry(entries: Entries, key: string) returns (i: nat)
    ensures Own(entries, key).Some? ==> i < |entries| && entries[i] == Entry(key, Own(entries, key).value)
    ensures Own(entries, key) == None ==> forall j :: 0 <= j < |entries| ==> entries[j].key != key
  {
    i := 0;
    if entries != [] && entries[0].key != key {
      i := OwnIsEntry(entries[1..], key);
      i := i + 1;
    }
  }

  lemma {:induction false} EntryIsOwn(entries: Entries, i: nat)
    requires Distinct(entries) && i < |entries|
    ensures Own(entries, entries[i].key) == Some(entries[i].value)
  {
    if i > 0 { EntryIsOwn(entries[1..], i - 1); }
  }

  lemma {:induction false} PutNew(entries: Entries, key: string, value: Value)
    requires Own(entries, key) == None
    ensures Put(entries, key, value) == entries + [Entry(key, value)]
  {
    if entries != [] { PutNew(entries[1..], key, value); }
  }

  lemma {:induction false} PutSame(entries: Entries, key: string, value: Value)
    requires Own(entries, key) == Some(value)
    ensures Put(entries, key, value) == entries
  {
    if entries != [] && entries[0].key != key { PutSame(entries[1..], key, value); }
  }

  lemma {:induction false} DropNone(entries: Entries, key: string)
    requires Own(entries, key) == None
    ensures Drop(entries, key) == entries
  {
    if entries != [] { DropNone(entries[1..], key); }
  }

  // ----- tidy entries

  /** Own keys are distinct and none holds null or undefined. */
  ghost predicate Tidy(entries: Entries) {
    Distinct(entries) && forall i :: 0 <= i < |entries| ==> !IsAbsent(entries[i].value)
  }

  lemma {:induction false} PutTidy(entries: Entries, key: string, value: Value)
    requires Tidy(entries) && !IsAbsent(value)
    ensures Tidy(Put(entries, key, value))
    ensures forall i :: 0 <= i < |Put(entries, key, value)| ==>
      Put(entries, key, value)[i] == Entry(key, value) || Put(entries, key, value)[i] in entries
  {
    if entries != [] { PutTidy(entries[1..], key, value); }
  }

  lemma {:induction false} DropTidy(entries: Entries, key: string)
    requires Tidy(entries)
    ensures Tidy(Drop(entries, key))
    ensures forall i :: 0 <= i < |Drop(entries, key)| ==> Drop(entries, key)[i] in entries
  {
    if entries != [] { DropTidy(entries[1..], key); }
  }

  lemma {:induction false} AssignKeepsTidy(result: Value, key: string, value: Value)
    requires result.Object? && Tidy(result.own) && !IsAbsent(value)
    ensures Tidy(Assign(result, key, value).own)
  {
    hide Find, Tidy, Put;
    PutTidy(result.own, key, value);
  }
}
