/**
 The camelCase/snake_case conversion of message trees (packages/shared/src/codec.ts).
 An object is its list of entries in insertion order; assigning to an existing
 key replaces the value in place.
 */
module CaseCodec {
  import opened Prelude

  // ----- keys

  predicate IsUpper(c: char) { 'A' <= c <= 'Z' }

  predicate IsLower(c: char) { 'a' <= c <= 'z' }

  function ToLower(c: char): (r: char)
    requires IsUpper(c)
    ensures IsLower(r) && ToUpper(r) == c
  {
    c + 32 as char
  }

  function ToUpper(c: char): (r: char)
    requires IsLower(c)
    ensures IsUpper(r) && r + 32 as char == c
  {
    c - 32 as char
  }

  function CamelToSnake(key: string): string {
    if key == "" then ""
    else (if IsUpper(key[0]) then ['_', ToLower(key[0])] else [key[0]]) + CamelToSnake(key[1..])
  }

  function SnakeToCamel(key: string): string {
    if key == "" then ""
    else if |key| >= 2 && key[0] == '_' && IsLower(key[1]) then [ToUpper(key[1])] + SnakeToCamel(key[2..])
    else [key[0]] + SnakeToCamel(key[1..])
  }

  /** No underscore directly before a lowercase letter. */
  predicate Restorable(key: string) {
    forall i :: 0 <= i < |key| - 1 ==> !(key[i] == '_' && IsLower(key[i + 1]))
  }

  lemma RestorableTail(key: string)
    requires Restorable(key) && key != ""
    ensures Restorable(key[1..])
  {
    var tail := key[1..];
    forall i | 0 <= i < |tail| - 1 ensures !(tail[i] == '_' && IsLower(tail[i + 1])) {
      assert tail[i] == key[i + 1] && tail[i + 1] == key[i + 2];
    }
  }

  lemma {:induction false} RestorableKeyReturns(key: string)
    requires Restorable(key)
    ensures SnakeToCamel(CamelToSnake(key)) == key
  {
    if key != "" {
      RestorableTail(key);
      RestorableKeyReturns(key[1..]);
      var snake, tail := CamelToSnake(key), CamelToSnake(key[1..]);
      if IsUpper(key[0]) {
        assert snake[2..] == tail;
      } else {
        assert snake[1..] == tail && snake[0] == key[0];
        if |key| >= 2 { assert tail[0] == if IsUpper(key[1]) then '_' else key[1]; }
      }
    }
  }

  /** Conversion to camel case never leaves an underscore before a lowercase letter. */
  lemma {:induction false} CamelIsRestorable(key: string)
    ensures Restorable(SnakeToCamel(key))
  {
    if key != "" {
      var pair := |key| >= 2 && key[0] == '_' && IsLower(key[1]);
      var rest := if pair then key[2..] else key[1..];
      CamelIsRestorable(rest);
      var out, tail := SnakeToCamel(key), SnakeToCamel(rest);
      assert out == [out[0]] + tail;
      if tail != "" && !pair {
        assert rest[0] == key[1];
        assert tail[0] == key[1] || IsUpper(tail[0]);
      }
      forall i | 0 <= i < |out| - 1 ensures !(out[i] == '_' && IsLower(out[i + 1])) {
        if i > 0 { assert out[i] == tail[i - 1] && out[i + 1] == tail[i]; }
      }
    }
  }

  /** A key survives the round trip exactly when it has no underscore before a lowercase letter. */
  lemma {:induction false} KeyRoundTrip(key: string)
    ensures SnakeToCamel(CamelToSnake(key)) == key <==> Restorable(key)
  {
    if Restorable(key) { RestorableKeyReturns(key); }
    CamelIsRestorable(CamelToSnake(key));
  }

  lemma OnlyEnvBecomesEnv(key: string)
    ensures CamelToSnake(key) == "env" <==> key == "env"
    ensures SnakeToCamel(key) == "env" <==> key == "env"
  {
    hide CamelToSnake, SnakeToCamel;
    SameIfNoUpper(key);
    SameIfNoUnderscore(key);
    SameIfNoUpper("env");
    SameIfNoPair("env");
  }

  lemma {:induction false} SameIfNoUpper(key: string)
    ensures '_' !in CamelToSnake(key) ==> CamelToSnake(key) == key
    ensures (forall i :: 0 <= i < |key| ==> !IsUpper(key[i])) ==> CamelToSnake(key) == key
  {
    if key != "" {
      SameIfNoUpper(key[1..]);
      assert key == [key[0]] + key[1..];
    }
  }

  lemma {:induction false} SameIfNoUnderscore(key: string)
    ensures (forall i :: 0 <= i < |SnakeToCamel(key)| ==> !IsUpper(SnakeToCamel(key)[i])) ==> SnakeToCamel(key) == key
  {
    if key != "" {
      var pair := |key| >= 2 && key[0] == '_' && IsLower(key[1]);
      var rest := if pair then key[2..] else key[1..];
      SameIfNoUnderscore(rest);
      var out, tail := SnakeToCamel(key), SnakeToCamel(rest);
      if forall i :: 0 <= i < |out| ==> !IsUpper(out[i]) {
        assert !IsUpper(out[0]);
        forall i | 0 <= i < |tail| ensures !IsUpper(tail[i]) { assert tail[i] == out[i + 1]; }
        assert key == [key[0]] + key[1..];
      }
    }
  }

  lemma {:induction false} SameIfNoPair(key: string)
    requires '_' !in key
    ensures SnakeToCamel(key) == key
  {
    if key != "" {
      SameIfNoPair(key[1..]);
      assert key == [key[0]] + key[1..];
    }
  }

  // ----- keys that cannot be stored

  /** Assigning to this key of an object sets its prototype. */
  const PROTO := "__proto__"

  /** The key comes back, and its wire form can be stored. */
  predicate Survives(key: string) {
    Restorable(key) && CamelToSnake(key) != PROTO
  }

  /** What snake conversion can leave on the wire. */
  predicate IsWireKey(key: string) {
    (forall i :: 0 <= i < |key| ==> !IsUpper(key[i])) && key != PROTO
  }

  lemma {:induction false} SnakeHasNoUpper(key: string)
    ensures forall i :: 0 <= i < |CamelToSnake(key)| ==> !IsUpper(CamelToSnake(key)[i])
  {
    if key != "" { SnakeHasNoUpper(key[1..]); }
  }

  lemma {:induction false} LowerKeyReturns(key: string)
    requires forall i :: 0 <= i < |key| ==> !IsUpper(key[i])
    ensures CamelToSnake(SnakeToCamel(key)) == key
  {
    if key != "" {
      var pair := |key| >= 2 && key[0] == '_' && IsLower(key[1]);
      var rest := if pair then key[2..] else key[1..];
      LowerKeyReturns(rest);
      assert SnakeToCamel(key)[1..] == SnakeToCamel(rest);
      assert key == (if pair then ['_', key[1]] else [key[0]]) + rest;
    }
  }

  lemma WireKeySurvives(key: string)
    requires IsWireKey(key)
    ensures Survives(SnakeToCamel(key))
  {
    CamelIsRestorable(key);
    LowerKeyReturns(key);
  }

  lemma ProtoIsNotRestorable()
    ensures !Restorable(PROTO)
  {
    assert PROTO[1] == '_' && IsLower(PROTO[2]);
  }

  lemma NoPairAfterProto()
    ensures SnakeToCamel("roto__") == "roto__"
  {
    assert "roto__"[1..] == "oto__" && "oto__"[1..] == "to__" && "to__"[1..] == "o__" && "o__"[1..] == "__" && "__"[1..] == "_" && "_"[1..] == "";
    assert SnakeToCamel("_") == "_";
    assert SnakeToCamel("__") == "__";
    assert SnakeToCamel("o__") == "o__";
    assert SnakeToCamel("to__") == "to__";
  }

  lemma PairInProto()
    ensures SnakeToCamel("_proto__") == "Proto__"
  {
    hide CamelToSnake, Restorable;
    NoPairAfterProto();
    assert "_proto__"[2..] == "roto__" && "_proto__"[1] == 'p';
  }

  lemma UnderscoreStays(rest: string)
    requires rest != "" && rest[0] == '_'
    ensures SnakeToCamel("_" + rest) == "_" + SnakeToCamel(rest)
  {
    assert ("_" + rest)[1..] == rest;
  }

  lemma ProtoInCamel()
    ensures SnakeToCamel(PROTO) == "_Proto__" && CamelToSnake("_Proto__") == PROTO
  {
    hide CamelToSnake, SnakeToCamel, Restorable;
    PairInProto();
    assert PROTO == "_" + "_proto__";
    UnderscoreStays("_proto__");
    LowerKeyReturns(PROTO);
  }

  /** Of all keys that come back, only this one cannot be stored. */
  lemma OnlyOneKeyIsLost(key: string)
    requires Restorable(key)
    ensures Survives(key) <==> key != "_Proto__"
  {
    hide SnakeToCamel, CamelToSnake, Restorable;
    RestorableKeyReturns(key);
    ProtoInCamel();
  }

  // ----- trees

  datatype Value =
    | Scalar(text: string)
    | Binary(bytes: seq<Byte>)
    | Array(items: seq<Value>)
    | Object(entries: seq<Entry>)

  datatype Entry = Entry(key: string, value: Value)

  /** The value of this wire key is a map with user-defined keys. */
  predicate IsRawKey(wireKey: string) { wireKey == "env" }

  /** `out[key] = value`. */
  function Put(out: seq<Entry>, key: string, value: Value): seq<Entry> {
    if key == PROTO then out
    else if out == [] then [Entry(key, value)]
    else if out[0].key == key then [Entry(key, value)] + out[1..]
    else [out[0]] + Put(out[1..], key, value)
  }

  function Snake(v: Value, raw: bool): Value
    decreases v, 0
  {
    match v
    case Scalar(_) => v
    case Binary(_) => v
    case Array(items) => Array(SnakeItems(items))
    case Object(entries) => if raw then v else Object(SnakeEntries(entries))
  }

  function SnakeItems(items: seq<Value>): seq<Value>
    decreases items, 0
  {
    if items == [] then []
    else SnakeItems(items[..|items| - 1]) + [Snake(items[|items| - 1], false)]
  }

  function SnakeEntries(entries: seq<Entry>): seq<Entry>
    decreases entries, 0
  {
    if entries == [] then []
    else
      var last := entries[|entries| - 1];
      var key := CamelToSnake(last.key);
      Put(SnakeEntries(entries[..|entries| - 1]), key, Snake(last.value, IsRawKey(key)))
  }

  function Camel(v: Value, raw: bool): Value
    decreases v, 0
  {
    match v
    case Scalar(_) => v
    case Binary(_) => v
    case Array(items) => Array(CamelItems(items))
    case Object(entries) => if raw then v else Object(CamelEntries(entries))
  }

  function CamelItems(items: seq<Value>): seq<Value>
    decreases items, 0
  {
    if items == [] then []
    else CamelItems(items[..|items| - 1]) + [Camel(items[|items| - 1], false)]
  }

  function CamelEntries(entries: seq<Entry>): seq<Entry>
    decreases entries, 0
  {
    if entries == [] then []
    else
      var last := entries[|entries| - 1];
      Put(CamelEntries(entries[..|entries| - 1]), SnakeToCamel(last.key), Camel(last.value, IsRawKey(last.key)))
  }

  // ----- which trees survive

  ghost predicate IsNew(entries: seq<Entry>, key: string) {
    forall i :: 0 <= i < |entries| ==> entries[i].key != key
  }

  ghost predicate DistinctKeys(entries: seq<Entry>) {
    forall i, j :: 0 <= i < j < |entries| ==> entries[i].key != entries[j].key
  }

  /** Objects have distinct keys, as every JavaScript object does. */
  ghost predicate WellFormed(v: Value) {
    match v
    case Scalar(_) => true
    case Binary(_) => true
    case Array(items) => forall i :: 0 <= i < |items| ==> WellFormed(items[i])
    case Object(entries) => DistinctKeys(entries) && forall i :: 0 <= i < |entries| ==> WellFormed(entries[i].value)
  }

  /** Every key outside raw maps is `ok`. */
  ghost predicate AllKeys(v: Value, raw: bool, ok: string -> bool) {
    match v
    case Scalar(_) => true
    case Binary(_) => true
    case Array(items) => forall i :: 0 <= i < |items| ==> AllKeys(items[i], false, ok)
    case Object(entries) => raw || forall i :: 0 <= i < |entries| ==> EntryKeys(entries[i], ok)
  }

  ghost predicate EntryKeys(e: Entry, ok: string -> bool) {
    ok(e.key) && AllKeys(e.value, IsRawKey(e.key), ok)
  }

  lemma {:induction false} PutNewKey(out: seq<Entry>, key: string, value: Value)
    requires IsNew(out, key) && key != PROTO
    ensures Put(out, key, value) == out + [Entry(key, value)]
  {
    if out != [] {
      PutNewKey(out[1..], key, value);
      assert out == [out[0]] + out[1..];
    }
  }

  lemma {:induction false} PutKeepsKeys(out: seq<Entry>, key: string, value: Value, ok: string -> bool)
    requires forall i :: 0 <= i < |out| ==> EntryKeys(out[i], ok)
    requires key != PROTO ==> EntryKeys(Entry(key, value), ok)
    ensures forall i :: 0 <= i < |Put(out, key, value)| ==> EntryKeys(Put(out, key, value)[i], ok)
  {
    if key != PROTO && out != [] {
      PutKeepsKeys(out[1..], key, value, ok);
    }
  }

  ghost predicate CamelTakes(from: string -> bool, to: string -> bool) {
    forall key :: from(key) ==> to(SnakeToCamel(key))
  }

  lemma {:induction false} CamelKeys(v: Value, raw: bool, from: string -> bool, to: string -> bool)
    requires CamelTakes(from, to) && AllKeys(v, raw, from)
    ensures AllKeys(Camel(v, raw), raw, to)
    decreases v, 0
  {
    match v {
      case Scalar(_) =>
      case Binary(_) =>
      case Array(items) => CamelItemKeys(items, from, to);
      case Object(entries) => if !raw { CamelEntryKeys(entries, from, to); }
    }
  }

  lemma {:induction false} CamelItemKeys(items: seq<Value>, from: string -> bool, to: string -> bool)
    requires CamelTakes(from, to) && forall i :: 0 <= i < |items| ==> AllKeys(items[i], false, from)
    ensures forall i :: 0 <= i < |CamelItems(items)| ==> AllKeys(CamelItems(items)[i], false, to)
    decreases items, 0
  {
    if items != [] {
      CamelItemKeys(items[..|items| - 1], from, to);
      CamelKeys(items[|items| - 1], false, from, to);
    }
  }

  lemma {:induction false} CamelEntryKeys(entries: seq<Entry>, from: string -> bool, to: string -> bool)
    requires CamelTakes(from, to) && forall i :: 0 <= i < |entries| ==> EntryKeys(entries[i], from)
    ensures forall i :: 0 <= i < |CamelEntries(entries)| ==> EntryKeys(CamelEntries(entries)[i], to)
    decreases entries, 0
  {
    if entries != [] {
      var before, last := entries[..|entries| - 1], entries[|entries| - 1];
      CamelEntryKeys(before, from, to);
      CamelKeys(last.value, IsRawKey(last.key), from, to);
      OnlyEnvBecomesEnv(last.key);
      PutKeepsKeys(CamelEntries(before), SnakeToCamel(last.key), Camel(last.value, IsRawKey(last.key)), to);
    }
  }

  /** Whatever arrives on the wire, the camel tree has restorable keys only. */
  lemma CamelTreeIsRestorable(v: Value, raw: bool)
    ensures AllKeys(Camel(v, raw), raw, Restorable)
  {
    var any: string -> bool := _ => true;
    forall key ensures Restorable(SnakeToCamel(key)) { CamelIsRestorable(key); }
    AnyKeys(v, raw, any);
    CamelKeys(v, raw, any, Restorable);
  }

  lemma {:induction false} AnyKeys(v: Value, raw: bool, any: string -> bool)
    requires forall key :: any(key)
    ensures AllKeys(v, raw, any)
    decreases v
  {
    match v {
      case Scalar(_) =>
      case Binary(_) =>
      case Array(items) => forall i | 0 <= i < |items| ensures AllKeys(items[i], false, any) { AnyKeys(items[i], false, any); }
      case Object(entries) =>
        forall i | 0 <= i < |entries| ensures EntryKeys(entries[i], any) { AnyKeys(entries[i].value, IsRawKey(entries[i].key), any); }
    }
  }

  /** Whatever tree is sent, its wire form has wire keys only. */
  lemma {:induction false} SnakeTreeIsWire(v: Value, raw: bool)
    ensures AllKeys(Snake(v, raw), raw, IsWireKey)
    decreases v, 0
  {
    match v {
      case Scalar(_) =>
      case Binary(_) =>
      case Array(items) => SnakeItemKeys(items);
      case Object(entries) => if !raw { SnakeEntryKeys(entries); }
    }
  }

  lemma {:induction false} SnakeItemKeys(items: seq<Value>)
    ensures forall i :: 0 <= i < |SnakeItems(items)| ==> AllKeys(SnakeItems(items)[i], false, IsWireKey)
    decreases items, 0
  {
    if items != [] {
      SnakeItemKeys(items[..|items| - 1]);
      SnakeTreeIsWire(items[|items| - 1], false);
    }
  }

  lemma {:induction false} SnakeEntryKeys(entries: seq<Entry>)
    ensures forall i :: 0 <= i < |SnakeEntries(entries)| ==> EntryKeys(SnakeEntries(entries)[i], IsWireKey)
    decreases entries, 0
  {
    if entries != [] {
      var before, last := entries[..|entries| - 1], entries[|entries| - 1];
      var key := CamelToSnake(last.key);
      SnakeEntryKeys(before);
      SnakeTreeIsWire(last.value, IsRawKey(key));
      SnakeHasNoUpper(last.key);
      PutKeepsKeys(SnakeEntries(before), key, Snake(last.value, IsRawKey(key)), IsWireKey);
    }
  }

  // ----- the round trip

  lemma {:induction false} SurvivingTreeReturns(v: Value, raw: bool)
    requires WellFormed(v) && AllKeys(v, raw, Survives)
    ensures Camel(Snake(v, raw), raw) == v
    decreases v, 0
  {
    match v {
      case Scalar(_) =>
      case Binary(_) =>
      case Array(items) => ItemsReturn(items);
      case Object(entries) => if !raw { EntriesReturn(entries); }
    }
  }

  lemma CamelItemsAppend(items: seq<Value>, item: Value)
    ensures CamelItems(items + [item]) == CamelItems(items) + [Camel(item, false)]
  {
    assert (items + [item])[..|items|] == items;
  }

  lemma {:induction false} ItemsReturn(items: seq<Value>)
    requires forall i :: 0 <= i < |items| ==> WellFormed(items[i]) && AllKeys(items[i], false, Survives)
    ensures CamelItems(SnakeItems(items)) == items
    decreases items, 0
  {
    if items != [] {
      var before, last := items[..|items| - 1], items[|items| - 1];
      ItemsReturn(before);
      SurvivingTreeReturns(last, false);
      CamelItemsAppend(SnakeItems(before), Snake(last, false));
      assert items == before + [last];
    }
  }

  lemma CamelEntriesAppend(entries: seq<Entry>, e: Entry)
    ensures CamelEntries(entries + [e]) == Put(CamelEntries(entries), SnakeToCamel(e.key), Camel(e.value, IsRawKey(e.key)))
  {
    assert (entries + [e])[..|entries|] == entries;
  }

  /** The wire keys of `wire` are those of `camel`, converted. */
  ghost predicate SameKeys(wire: seq<Entry>, camel: seq<Entry>) {
    && |wire| == |camel|
    && forall i :: 0 <= i < |wire| ==> wire[i].key == CamelToSnake(camel[i].key) && Survives(camel[i].key)
  }

  /** Two keys that survive never collide on the wire. */
  lemma NewKeyIsNewOnWire(wire: seq<Entry>, camel: seq<Entry>, key: string)
    requires SameKeys(wire, camel) && IsNew(camel, key) && Survives(key)
    ensures IsNew(wire, CamelToSnake(key))
  {
    RestorableKeyReturns(key);
    forall i | 0 <= i < |wire| ensures wire[i].key != CamelToSnake(key) {
      RestorableKeyReturns(camel[i].key);
    }
  }

  /** Snake conversion merges no two keys and camel conversion restores them all. */
  lemma {:induction false} EntriesReturn(entries: seq<Entry>)
    requires DistinctKeys(entries)
    requires forall i :: 0 <= i < |entries| ==> WellFormed(entries[i].value) && EntryKeys(entries[i], Survives)
    ensures SameKeys(SnakeEntries(entries), entries)
    ensures CamelEntries(SnakeEntries(entries)) == entries
    decreases entries, 0
  {
    if entries != [] {
      var before, last := entries[..|entries| - 1], entries[|entries| - 1];
      EntriesReturn(before);
      SurvivingTreeReturns(last.value, IsRawKey(last.key));
      assert entries == before + [last];
      LastEntryReturns(before, last);
    }
  }

  lemma LastEntryReturns(before: seq<Entry>, last: Entry)
    requires IsNew(before, last.key) && EntryKeys(last, Survives)
    requires SameKeys(SnakeEntries(before), before) && CamelEntries(SnakeEntries(before)) == before
    requires Camel(Snake(last.value, IsRawKey(last.key)), IsRawKey(last.key)) == last.value
    ensures SameKeys(SnakeEntries(before + [last]), before + [last])
    ensures CamelEntries(SnakeEntries(before + [last])) == before + [last]
  {
    var wire, key := SnakeEntries(before), CamelToSnake(last.key);
    OnlyEnvBecomesEnv(last.key);
    RestorableKeyReturns(last.key);
    ProtoIsNotRestorable();
    var sent := Entry(key, Snake(last.value, IsRawKey(key)));
    NewKeyIsNewOnWire(wire, before, last.key);
    PutNewKey(wire, key, sent.value);
    assert (before + [last])[..|before|] == before;
    assert SnakeEntries(before + [last]) == wire + [sent];
    CamelEntriesAppend(wire, sent);
    PutNewKey(before, last.key, last.value);
  }

  /** The camel/snake round trip restores a message tree exactly when all its keys
      outside raw `env` maps come back and can be stored. */
  lemma TreeRoundTrip(v: Value, raw: bool)
    requires WellFormed(v)
    ensures Camel(Snake(v, raw), raw) == v <==> AllKeys(v, raw, Survives)
  {
    if AllKeys(v, raw, Survives) { SurvivingTreeReturns(v, raw); }
    SnakeTreeIsWire(v, raw);
    forall key | IsWireKey(key) ensures Survives(SnakeToCamel(key)) { WireKeySurvives(key); }
    CamelKeys(Snake(v, raw), raw, IsWireKey, Survives);
  }

  // ----- the converters

  method ToSnakeCase(v: Value, raw: bool) returns (r: Value)
    ensures r == Snake(v, raw)
    decreases v
  {
    match v {
      case Scalar(_) => r := v;
      case Binary(_) => r := v;
      case Array(items) =>
        var out := [];
        for i := 0 to |items|
          invariant out == SnakeItems(items[..i])
        {
          var item := ToSnakeCase(items[i], false);
          assert items[..i + 1][..i] == items[..i];
          out := out + [item];
        }
        assert items[..|items|] == items;
        r := Array(out);
      case Object(entries) =>
        if raw { return v; }
        var out := [];
        for i := 0 to |entries|
          invariant out == SnakeEntries(entries[..i])
        {
          var key := CamelToSnake(entries[i].key);
          var value := ToSnakeCase(entries[i].value, IsRawKey(key));
          assert entries[..i + 1][..i] == entries[..i];
          out := Put(out, key, value);
        }
        assert entries[..|entries|] == entries;
        r := Object(out);
    }
  }

  method ToCamelCase(v: Value, raw: bool) returns (r: Value)
    ensures r == Camel(v, raw)
    decreases v
  {
    match v {
      case Scalar(_) => r := v;
      case Binary(_) => r := v;
      case Array(items) =>
        var out := [];
        for i := 0 to |items|
          invariant out == CamelItems(items[..i])
        {
          var item := ToCamelCase(items[i], false);
          assert items[..i + 1][..i] == items[..i];
          out := out + [item];
        }
        assert items[..|items|] == items;
        r := Array(out);
      case Object(entries) =>
        if raw { return v; }
        var out := [];
        for i := 0 to |entries|
          invariant out == CamelEntries(entries[..i])
        {
          var value := ToCamelCase(entries[i].value, IsRawKey(entries[i].key));
          assert entries[..i + 1][..i] == entries[..i];
          out := Put(out, SnakeToCamel(entries[i].key), value);
        }
        assert entries[..|entries|] == entries;
        r := Object(out);
    }
  }
}
