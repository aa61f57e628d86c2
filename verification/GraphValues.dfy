/** GraphQL values: objects that delete by tombstone, and the conversions to and from query values. */
module GraphValues {
  import opened Wrappers

  const TOMBSTONE_KEY := "*dead*"

  /** A float is carried as its bit pattern; no conversion looks at it. */
  datatype Value =
    | Int(i: int)
    | Float(bits: nat)
    | Text(text: string)
    | Boolean(b: bool)
    | Null
    | Enum(name: string)
    | List(vals: seq<Value>)
    | Obj(entries: seq<Entry>)

  datatype Entry = Entry(key: string, value: Value)

  // ------------------------------------------------------------------ insertion-ordered maps

  ghost predicate Distinct(m: seq<Entry>) {
    forall i, j :: 0 <= i < j < |m| ==> m[i].key != m[j].key
  }

  /** The value of the first entry with this key. */
  function Find(m: seq<Entry>, key: string): Option<Value> {
    if m == [] then None
    else if m[0].key == key then Some(m[0].value)
    else Find(m[1..], key)
  }

  /** Replaces the value where the key is, or adds the entry at the end. */
  function Put(m: seq<Entry>, key: string, value: Value): seq<Entry> {
    if m == [] then [Entry(key, value)]
    else if m[0].key == key then [Entry(key, value)] + m[1..]
    else [m[0]] + Put(m[1..], key, value)
  }

  /** Takes the entry of the key out. */
  function Drop(m: seq<Entry>, key: string): seq<Entry> {
    if m == [] then []
    else if m[0].key == key then m[1..]
    else [m[0]] + Drop(m[1..], key)
  }

  // ------------------------------------------------------------------ what an object stands for

  /** What iterating over the entries shows. */
  function Live(entries: seq<Entry>): seq<Entry> {
    if entries == [] then []
    else (if entries[0].key == TOMBSTONE_KEY then [] else [entries[0]]) + Live(entries[1..])
  }

  /** `Object::remove` on the entries: the first entry with the key becomes a tombstone. */
  function Bury(entries: seq<Entry>, key: string): seq<Entry> {
    if entries == [] then []
    else if entries[0].key == key then [Entry(TOMBSTONE_KEY, Null)] + entries[1..]
    else [entries[0]] + Bury(entries[1..], key)
  }

  lemma {:induction false} FindIsLive(entries: seq<Entry>, key: string)
    requires key != TOMBSTONE_KEY
    ensures Find(entries, key) == Find(Live(entries), key)
  {
    if entries == [] {
    } else {
      FindIsLive(entries[1..], key);
      if entries[0].key == TOMBSTONE_KEY {
        assert [] + Live(entries[1..]) == Live(entries[1..]);
      } else {
        assert ([entries[0]] + Live(entries[1..]))[1..] == Live(entries[1..]);
      }
    }
  }

  lemma LiveCons(e: Entry, rest: seq<Entry>)
    ensures Live([e] + rest) == (if e.key == TOMBSTONE_KEY then [] else [e]) + Live(rest)
  {
    assert ([e] + rest)[1..] == rest;
  }

  lemma {:induction false} PutIsLive(entries: seq<Entry>, key: string, value: Value)
    requires key != TOMBSTONE_KEY
    ensures Live(Put(entries, key, value)) == Put(Live(entries), key, value)
  {
    if entries == [] {
      LiveCons(Entry(key, value), []);
      assert [Entry(key, value)] + [] == [Entry(key, value)];
    } else {
      var first, rest := entries[0], entries[1..];
      PutIsLive(rest, key, value);
      if first.key == key {
        LiveCons(Entry(key, value), rest);
        assert ([first] + Live(rest))[1..] == Live(rest);
      } else {
        LiveCons(first, Put(rest, key, value));
        if first.key == TOMBSTONE_KEY {
          assert [] + Live(rest) == Live(rest);
          assert [] + Live(Put(rest, key, value)) == Live(Put(rest, key, value));
        } else {
          assert ([first] + Live(rest))[1..] == Live(rest);
        }
      }
    }
  }

  lemma {:induction false} BuryIsLive(entries: seq<Entry>, key: string)
    requires key != TOMBSTONE_KEY
    ensures Live(Bury(entries, key)) == Drop(Live(entries), key)
  {
    if entries == [] {
    } else {
      var first, rest := entries[0], entries[1..];
      BuryIsLive(rest, key);
      if first.key == key {
        LiveCons(Entry(TOMBSTONE_KEY, Null), rest);
        assert ([first] + Live(rest))[1..] == Live(rest) && [] + Live(rest) == Live(rest);
      } else {
        LiveCons(first, Bury(rest, key));
        if first.key == TOMBSTONE_KEY {
          assert [] + Live(rest) == Live(rest);
          assert [] + Live(Bury(rest, key)) == Live(Bury(rest, key));
        } else {
          assert ([first] + Live(rest))[1..] == Live(rest);
        }
      }
    }
  }

  lemma {:induction false} PutTombstoneIsHidden(entries: seq<Entry>, value: Value)
    ensures Live(Put(entries, TOMBSTONE_KEY, value)) == Live(entries)
  {
    if entries == [] {
      LiveCons(Entry(TOMBSTONE_KEY, value), []);
    } else {
      var first, rest := entries[0], entries[1..];
      PutTombstoneIsHidden(rest, value);
      if first.key == TOMBSTONE_KEY {
        LiveCons(Entry(TOMBSTONE_KEY, value), rest);
      } else {
        LiveCons(first, Put(rest, TOMBSTONE_KEY, value));
      }
    }
  }

  lemma {:induction false} LiveHasNoTombstone(entries: seq<Entry>)
    ensures forall i :: 0 <= i < |Live(entries)| ==> Live(entries)[i].key != TOMBSTONE_KEY
  {
    if entries == [] {
    } else {
      LiveHasNoTombstone(entries[1..]);
    }
  }

  lemma {:induction false} PutAbsent(m: seq<Entry>, key: string, value: Value)
    requires forall i :: 0 <= i < |m| ==> m[i].key != key
    ensures Put(m, key, value) == m + [Entry(key, value)]
  {
    if m == [] {
    } else {
      PutAbsent(m[1..], key, value);
      assert [m[0]] + (m[1..] + [Entry(key, value)]) == m + [Entry(key, value)];
    }
  }

  /** An insertion acts as on an insertion-ordered map exactly when the key is not the tombstone's. */
  lemma InsertActsAsMapIff(entries: seq<Entry>, key: string, value: Value)
    ensures Live(Put(entries, key, value)) == Put(Live(entries), key, value) <==> key != TOMBSTONE_KEY
  {
    if key != TOMBSTONE_KEY {
      PutIsLive(entries, key, value);
    } else {
      PutTombstoneIsHidden(entries, value);
      LiveHasNoTombstone(entries);
      PutAbsent(Live(entries), key, value);
    }
  }

  // ------------------------------------------------------------------ the object

  class Object {
    var entries: seq<Entry>

    constructor ()
      ensures entries == []
    {
      entries := [];
    }

    method IndexOf(key: string) returns (i: nat)
      ensures i <= |entries| && (i < |entries| ==> entries[i].key == key)
      ensures forall k :: 0 <= k < i ==> entries[k].key != key
    {
      i := 0;
      while i < |entries|
        invariant 0 <= i <= |entries|
        invariant forall k :: 0 <= k < i ==> entries[k].key != key
      {
        if entries[i].key == key {
          return;
        }
        i := i + 1;
      }
    }

    method Get(key: string) returns (value: Option<Value>)
      ensures value == Find(entries, key)
    {
      var i := IndexOf(key);
      FindAt(entries, key, i);
      value := if i < |entries| then Some(entries[i].value) else None;
    }

    method Insert(key: string, value: Value) returns (previous: Option<Value>)
      modifies this
      ensures entries == Put(old(entries), key, value)
      ensures previous == Find(old(entries), key)
    {
      var i := IndexOf(key);
      FindAt(entries, key, i);
      PutAt(entries, key, value, i);
      if i < |entries| {
        previous := Some(entries[i].value);
        entries := entries[i := Entry(key, value)];
      } else {
        previous := None;
        entries := entries + [Entry(key, value)];
      }
    }

    method Remove(key: string) returns (previous: Option<Value>)
      modifies this
      ensures entries == Bury(old(entries), key)
      ensures previous == Find(old(entries), key)
    {
      var i := IndexOf(key);
      FindAt(entries, key, i);
      BuryAt(entries, key, i);
      if i < |entries| {
        previous := Some(entries[i].value);
        entries := entries[i := Entry(TOMBSTONE_KEY, Null)];
      } else {
        previous := None;
      }
    }

    /** Draining the iterator. */
    method Iterate() returns (items: seq<Entry>)
      ensures items == Live(entries)
    {
      items := [];
      for i := 0 to |entries|
        invariant Live(entries) == items + Live(entries[i..])
      {
        assert entries[i..][1..] == entries[i + 1..];
        if entries[i].key != TOMBSTONE_KEY {
          assert items + ([entries[i]] + Live(entries[i + 1..])) == items + [entries[i]] + Live(entries[i + 1..]);
          items := items + [entries[i]];
        } else {
          assert [] + Live(entries[i + 1..]) == Live(entries[i + 1..]);
        }
      }
      assert items + [] == items;
    }
  }

  lemma {:induction false} FindAt(m: seq<Entry>, key: string, i: nat)
    requires i <= |m| && (i < |m| ==> m[i].key == key) && forall k :: 0 <= k < i ==> m[k].key != key
    ensures Find(m, key) == if i < |m| then Some(m[i].value) else None
  {
    if i == 0 {
    } else {
      FindAt(m[1..], key, i - 1);
    }
  }

  lemma {:induction false} PutAt(m: seq<Entry>, key: string, value: Value, i: nat)
    requires i <= |m| && (i < |m| ==> m[i].key == key) && forall k :: 0 <= k < i ==> m[k].key != key
    ensures Put(m, key, value) == if i < |m| then m[i := Entry(key, value)] else m + [Entry(key, value)]
  {
    if i == 0 {
    } else {
      PutAt(m[1..], key, value, i - 1);
    }
  }

  lemma {:induction false} BuryAt(m: seq<Entry>, key: string, i: nat)
    requires i <= |m| && (i < |m| ==> m[i].key == key) && forall k :: 0 <= k < i ==> m[k].key != key
    ensures Bury(m, key) == if i < |m| then m[i := Entry(TOMBSTONE_KEY, Null)] else m
  {
    if i == 0 {
    } else {
      BuryAt(m[1..], key, i - 1);
    }
  }

  // ------------------------------------------------------------------ any sequence of insertions and removals

  datatype Op = Insertion(key: string, value: Value) | Removal(key: string)

  function RunObject(ops: seq<Op>): seq<Entry> {
    if ops == [] then []
    else
      var before, op := RunObject(ops[..|ops| - 1]), ops[|ops| - 1];
      if op.Insertion? then Put(before, op.key, op.value) else Bury(before, op.key)
  }

  function RunMap(ops: seq<Op>): seq<Entry> {
    if ops == [] then []
    else
      var before, op := RunMap(ops[..|ops| - 1]), ops[|ops| - 1];
      if op.Insertion? then Put(before, op.key, op.value) else Drop(before, op.key)
  }

  /** After any operations on ordinary keys, iteration and lookup are those of an insertion-ordered map. */
  lemma {:induction false} ObjectActsAsMap(ops: seq<Op>, key: string)
    requires (forall i :: 0 <= i < |ops| ==> ops[i].key != TOMBSTONE_KEY) && key != TOMBSTONE_KEY
    ensures Live(RunObject(ops)) == RunMap(ops)
    ensures Find(RunObject(ops), key) == Find(RunMap(ops), key)
  {
    FindIsLive(RunObject(ops), key);
    if ops != [] {
      var front, op := ops[..|ops| - 1], ops[|ops| - 1];
      ObjectActsAsMap(front, key);
      if op.Insertion? {
        PutIsLive(RunObject(front), op.key, op.value);
      } else {
        BuryIsLive(RunObject(front), op.key);
      }
    }
  }

  /** What the last operation on a key left there. */
  function LastWrite(ops: seq<Op>, key: string): Option<Value> {
    if ops == [] then None
    else
      var op := ops[|ops| - 1];
      if op.key != key then LastWrite(ops[..|ops| - 1], key)
      else if op.Insertion? then Some(op.value) else None
  }

  lemma {:induction false} FindAfterPut(m: seq<Entry>, key: string, value: Value, other: string)
    ensures Find(Put(m, key, value), other) == if other == key then Some(value) else Find(m, other)
  {
    if m != [] {
      FindAfterPut(m[1..], key, value, other);
      assert ([m[0]] + Put(m[1..], key, value))[1..] == Put(m[1..], key, value);
      assert ([Entry(key, value)] + m[1..])[1..] == m[1..];
    } else {
      assert [Entry(key, value)][1..] == [];
    }
  }

  lemma {:induction false} FindInDistinct(m: seq<Entry>, key: string)
    requires forall i :: 0 <= i < |m| ==> m[i].key != key
    ensures Find(m, key) == None
  {
    if m == [] {
    } else {
      FindInDistinct(m[1..], key);
    }
  }

  lemma {:induction false} FindAfterDrop(m: seq<Entry>, key: string, other: string)
    requires Distinct(m)
    ensures Find(Drop(m, key), other) == if other == key then None else Find(m, other)
  {
    if m == [] {
    } else {
      if m[0].key == key {
        FindInDistinct(m[1..], key);
      } else {
        FindAfterDrop(m[1..], key, other);
        assert ([m[0]] + Drop(m[1..], key))[1..] == Drop(m[1..], key);
      }
    }
  }

  lemma {:induction false} PutKeys(m: seq<Entry>, key: string, value: Value, bad: string)
    requires bad != key && forall i :: 0 <= i < |m| ==> m[i].key != bad
    ensures forall i :: 0 <= i < |Put(m, key, value)| ==> Put(m, key, value)[i].key != bad
  {
    if m == [] {
    } else {
      PutKeys(m[1..], key, value, bad);
    }
  }

  lemma {:induction false} PutDistinct(m: seq<Entry>, key: string, value: Value)
    requires Distinct(m)
    ensures Distinct(Put(m, key, value))
  {
    if m == [] {
    } else {
      PutDistinct(m[1..], key, value);
      if m[0].key != key {
        PutKeys(m[1..], key, value, m[0].key);
      }
    }
  }

  lemma {:induction false} DropKeys(m: seq<Entry>, key: string, bad: string)
    requires forall i :: 0 <= i < |m| ==> m[i].key != bad
    ensures forall i :: 0 <= i < |Drop(m, key)| ==> Drop(m, key)[i].key != bad
  {
    if m == [] {
    } else {
      DropKeys(m[1..], key, bad);
    }
  }

  lemma {:induction false} DropDistinct(m: seq<Entry>, key: string)
    requires Distinct(m)
    ensures Distinct(Drop(m, key))
  {
    if m != [] && m[0].key != key {
      DropDistinct(m[1..], key);
      DropKeys(m[1..], key, m[0].key);
    }
  }

  lemma {:induction false} RunMapFinds(ops: seq<Op>, key: string)
    ensures Distinct(RunMap(ops)) && Find(RunMap(ops), key) == LastWrite(ops, key)
  {
    if ops == [] {
    } else {
      var front, op := ops[..|ops| - 1], ops[|ops| - 1];
      RunMapFinds(front, key);
      if op.Insertion? {
        PutDistinct(RunMap(front), op.key, op.value);
        FindAfterPut(RunMap(front), op.key, op.value, key);
      } else {
        DropDistinct(RunMap(front), op.key);
        FindAfterDrop(RunMap(front), op.key, key);
      }
    }
  }

  /** `get` returns what the last insertion of the key put there, unless a removal came after it. */
  lemma GetReturnsLastWrite(ops: seq<Op>, key: string)
    requires (forall i :: 0 <= i < |ops| ==> ops[i].key != TOMBSTONE_KEY) && key != TOMBSTONE_KEY
    ensures Find(RunObject(ops), key) == LastWrite(ops, key)
    ensures Distinct(Live(RunObject(ops)))
  {
    ObjectActsAsMap(ops, key);
    RunMapFinds(ops, key);
  }

  // ------------------------------------------------------------------ query values

  datatype QueryValue =
    | QVariable(variable: string)
    | QInt(number: int)
    | QFloat(floatBits: nat)
    | QText(string: string)
    | QBoolean(boolean: bool)
    | QNull
    | QEnum(enum: string)
    | QList(items: seq<QueryValue>)
    | QObject(fields: seq<Field>)

  /** A sorted map, as the list of its entries in key order. */
  datatype Field = Field(key: string, value: QueryValue)

  predicate Before(a: string, b: string) {
    b != "" && (a == "" || a[0] < b[0] || (a[0] == b[0] && Before(a[1..], b[1..])))
  }

  ghost predicate SortedFields(fs: seq<Field>) {
    forall i, j :: 0 <= i < j < |fs| ==> Before(fs[i].key, fs[j].key)
  }

  /** Every object in the value is a sorted map. */
  ghost predicate Proper(q: QueryValue)
    decreases q
  {
    match q
    case QList(items) => ProperList(items)
    case QObject(fields) => SortedFields(fields) && ProperFields(fields)
    case _ => true
  }

  ghost predicate ProperList(items: seq<QueryValue>)
    decreases items
  {
    items == [] || (ProperList(items[..|items| - 1]) && Proper(items[|items| - 1]))
  }

  ghost predicate ProperFields(fields: seq<Field>)
    decreases fields
  {
    fields == [] || (ProperFields(fields[..|fields| - 1]) && Proper(fields[|fields| - 1].value))
  }

  /** `BTreeMap::insert`. */
  function InsertField(fs: seq<Field>, f: Field): seq<Field> {
    if fs == [] || Before(fs[|fs| - 1].key, f.key) then fs + [f]
    else if fs[|fs| - 1].key == f.key then fs[..|fs| - 1] + [f]
    else InsertField(fs[..|fs| - 1], f) + [fs[|fs| - 1]]
  }

  predicate FitsI64(n: int) {
    -0x8000_0000_0000_0000 <= n < 0x8000_0000_0000_0000
  }

  predicate FitsI32(n: int) {
    -0x8000_0000 <= n < 0x8000_0000
  }

  /** The cast `as i32`. */
  function AsI32(n: int): int {
    (n + 0x8000_0000) % 0x1_0000_0000 - 0x8000_0000
  }

  /** The converted value, or the part that cannot be converted. */
  datatype Conversion<T> = Converted(value: T) | Refused(part: QueryValue)

  /** `TryFrom<q::Value> for Value`. */
  function TryFrom(q: QueryValue): Conversion<Value>
    decreases q
  {
    match q
    case QVariable(_) => Refused(q)
    case QInt(n) => if FitsI64(n) then Converted(Int(n)) else Refused(q)
    case QFloat(f) => Converted(Float(f))
    case QText(s) => Converted(Text(s))
    case QBoolean(b) => Converted(Boolean(b))
    case QNull => Converted(Null)
    case QEnum(s) => Converted(Enum(s))
    case QList(items) =>
      var vals := TryFromList(items);
      if vals.Refused? then Refused(vals.part) else Converted(List(vals.value))
    case QObject(fields) =>
      var entries := TryFromFields(fields);
      if entries.Refused? then Refused(entries.part) else Converted(Obj(entries.value))
  }

  function TryFromList(items: seq<QueryValue>): Conversion<seq<Value>>
    decreases items
  {
    if items == [] then Converted([])
    else
      var front, last := TryFromList(items[..|items| - 1]), TryFrom(items[|items| - 1]);
      if front.Refused? then front else if last.Refused? then Refused(last.part) else Converted(front.value + [last.value])
  }

  function TryFromFields(fields: seq<Field>): Conversion<seq<Entry>>
    decreases fields
  {
    if fields == [] then Converted([])
    else
      var f := fields[|fields| - 1];
      var front, last := TryFromFields(fields[..|fields| - 1]), TryFrom(f.value);
      if front.Refused? then front
      else if last.Refused? then Refused(last.part) else Converted(front.value + [Entry(f.key, last.value)])
  }

  /** `From<Value> for q::Value`. */
  function From(v: Value): QueryValue
    decreases v
  {
    match v
    case Int(i) => QInt(AsI32(i))
    case Float(f) => QFloat(f)
    case Text(s) => QText(s)
    case Boolean(b) => QBoolean(b)
    case Null => QNull
    case Enum(s) => QEnum(s)
    case List(vals) => QList(FromList(vals))
    case Obj(entries) => QObject(FromEntries(entries))
  }

  function FromList(vals: seq<Value>): seq<QueryValue>
    decreases vals
  {
    if vals == [] then [] else FromList(vals[..|vals| - 1]) + [From(vals[|vals| - 1])]
  }

  function FromEntries(entries: seq<Entry>): seq<Field>
    decreases entries
  {
    if entries == [] then []
    else
      var before, e := FromEntries(entries[..|entries| - 1]), entries[|entries| - 1];
      if e.key == TOMBSTONE_KEY then before else InsertField(before, Field(e.key, From(e.value)))
  }

  // ------------------------------------------------------------------ the round trip

  /** All integers fit 32 bits and no key is the tombstone's. */
  predicate Plain(q: QueryValue)
    decreases q
  {
    match q
    case QInt(n) => FitsI32(n)
    case QList(items) => PlainList(items)
    case QObject(fields) => PlainFields(fields)
    case _ => true
  }

  predicate PlainList(items: seq<QueryValue>)
    decreases items
  {
    items == [] || (PlainList(items[..|items| - 1]) && Plain(items[|items| - 1]))
  }

  predicate PlainFields(fields: seq<Field>)
    decreases fields
  {
    fields == [] ||
    var last := fields[|fields| - 1];
    PlainFields(fields[..|fields| - 1]) && last.key != TOMBSTONE_KEY && Plain(last.value)
  }

  /** No variable, and no integer beyond 64 bits. */
  predicate Concrete(q: QueryValue)
    decreases q
  {
    match q
    case QVariable(_) => false
    case QInt(n) => FitsI64(n)
    case QList(items) => ConcreteList(items)
    case QObject(fields) => ConcreteFields(fields)
    case _ => true
  }

  predicate ConcreteList(items: seq<QueryValue>)
    decreases items
  {
    items == [] || (ConcreteList(items[..|items| - 1]) && Concrete(items[|items| - 1]))
  }

  predicate ConcreteFields(fields: seq<Field>)
    decreases fields
  {
    fields == [] || (ConcreteFields(fields[..|fields| - 1]) && Concrete(fields[|fields| - 1].value))
  }

  /** A value that has no counterpart. */
  predicate Offends(q: QueryValue) {
    q.QVariable? || (q.QInt? && !FitsI64(q.number))
  }

  lemma AsI32Iff(n: int)
    ensures AsI32(n) == n <==> FitsI32(n)
  {
  }

  lemma {:induction false} ConvertsIff(q: QueryValue)
    ensures TryFrom(q).Converted? <==> Concrete(q)
    ensures TryFrom(q).Refused? ==> Offends(TryFrom(q).part)
    decreases q
  {
    match q
    case QList(items) => ListConvertsIff(items);
    case QObject(fields) => FieldsConvertIff(fields);
    case _ =>
  }

  lemma {:induction false} ListConvertsIff(items: seq<QueryValue>)
    ensures TryFromList(items).Converted? <==> ConcreteList(items)
    ensures TryFromList(items).Refused? ==> Offends(TryFromList(items).part)
    decreases items
  {
    if items == [] {
    } else {
      ListConvertsIff(items[..|items| - 1]);
      ConvertsIff(items[|items| - 1]);
    }
  }

  lemma {:induction false} FieldsConvertIff(fields: seq<Field>)
    ensures TryFromFields(fields).Converted? <==> ConcreteFields(fields)
    ensures TryFromFields(fields).Refused? ==> Offends(TryFromFields(fields).part)
    decreases fields
  {
    if fields == [] {
    } else {
      FieldsConvertIff(fields[..|fields| - 1]);
      ConvertsIff(fields[|fields| - 1].value);
    }
  }

  /** A query value survives the round trip exactly when it is plain. */
  lemma {:induction false} RoundTripIff(q: QueryValue)
    requires Proper(q) && TryFrom(q).Converted?
    ensures From(TryFrom(q).value) == q <==> Plain(q)
    decreases q
  {
    match q
    case QInt(n) => AsI32Iff(n);
    case QList(items) => ListRoundTripIff(items);
    case QObject(fields) => FieldsRoundTripIff(fields);
    case _ =>
  }

  lemma {:induction false} ListRoundTripIff(items: seq<QueryValue>)
    requires TryFromList(items).Converted? && ProperList(items)
    ensures FromList(TryFromList(items).value) == items <==> PlainList(items)
    ensures |FromList(TryFromList(items).value)| == |items|
    decreases items
  {
    if items == [] {
    } else {
      var front, last := items[..|items| - 1], items[|items| - 1];
      ListRoundTripIff(front);
      RoundTripIff(last);
      FromListPush(TryFromList(front).value, TryFrom(last).value);
      SameEnds(FromList(TryFromList(front).value), From(TryFrom(last).value), front, last);
      assert items == front + [last];
    }
  }

  lemma FromListPush(vals: seq<Value>, v: Value)
    ensures FromList(vals + [v]) == FromList(vals) + [From(v)]
  {
    assert (vals + [v])[..|vals + [v]| - 1] == vals;
  }

  lemma SameEnds<T>(s: seq<T>, x: T, t: seq<T>, y: T)
    ensures s + [x] == t + [y] <==> s == t && x == y
  {
    if s + [x] == t + [y] {
      assert s == (s + [x])[..|s|] && t == (t + [y])[..|t|];
      assert (s + [x])[|s|] == x && (t + [y])[|t|] == y;
    }
  }

  /** What is left of the fields of an object: tombstones are dropped, values make the round trip. */
  function Returned(fields: seq<Field>): (r: seq<Field>)
    requires TryFromFields(fields).Converted?
    ensures |r| <= |fields|
  {
    if fields == [] then []
    else
      var before, last := Returned(fields[..|fields| - 1]), fields[|fields| - 1];
      if last.key == TOMBSTONE_KEY then before else before + [Field(last.key, From(TryFrom(last.value).value))]
  }

  lemma {:induction false} ReturnedKeys(fields: seq<Field>, key: string)
    requires TryFromFields(fields).Converted? && forall i :: 0 <= i < |fields| ==> Before(fields[i].key, key)
    ensures forall i :: 0 <= i < |Returned(fields)| ==> Before(Returned(fields)[i].key, key)
  {
    if fields == [] {
    } else {
      ReturnedKeys(fields[..|fields| - 1], key);
    }
  }

  lemma FromEntriesPush(entries: seq<Entry>, e: Entry)
    ensures FromEntries(entries + [e]) ==
            if e.key == TOMBSTONE_KEY then FromEntries(entries) else InsertField(FromEntries(entries), Field(e.key, From(e.value)))
  {
    assert (entries + [e])[..|entries + [e]| - 1] == entries;
  }

  lemma {:induction false} FieldsRoundTrip(fields: seq<Field>)
    requires TryFromFields(fields).Converted? && SortedFields(fields)
    ensures FromEntries(TryFromFields(fields).value) == Returned(fields)
  {
    if fields == [] {
    } else {
      var front, last := fields[..|fields| - 1], fields[|fields| - 1];
      FieldsRoundTrip(front);
      FromEntriesPush(TryFromFields(front).value, Entry(last.key, TryFrom(last.value).value));
      ReturnedKeys(front, last.key);
    }
  }

  lemma {:induction false} ReturnedAllIff(fields: seq<Field>)
    requires TryFromFields(fields).Converted? && ProperFields(fields)
    ensures Returned(fields) == fields <==> PlainFields(fields)
    decreases fields, 0
  {
    if fields == [] {
    } else {
      var front, last := fields[..|fields| - 1], fields[|fields| - 1];
      ReturnedAllIff(front);
      RoundTripIff(last.value);
      SameEnds(Returned(front), Field(last.key, From(TryFrom(last.value).value)), front, last);
      assert fields == front + [last];
    }
  }

  lemma {:induction false} FieldsRoundTripIff(fields: seq<Field>)
    requires TryFromFields(fields).Converted? && SortedFields(fields) && ProperFields(fields)
    ensures FromEntries(TryFromFields(fields).value) == fields <==> PlainFields(fields)
    decreases fields, 1
  {
    FieldsRoundTrip(fields);
    ReturnedAllIff(fields);
  }
}
