/**
 The definite-length encodings of RFC 8949 and the data items they stand for, defined apart from the reader, and
 exactly when the reader takes an encoding for its data item.
 */
module CborRfc {
  import opened Prelude
  import opened Cbor
  import opened CborEncoding

  // ----- well-formed encodings and their data items -----

  /** Arguments fit their widths, texts decode, maps list pairs and flags are false, true or null. */
  predicate Formed(dec: Decoder, t: Tree) {
    match t
    case Number(_, w, n) => w.Holds(n)
    case Chars(text, w, s) => w.Holds(|s|) && (text ==> dec(s).Some?)
    case Array(w, items) => w.Holds(|items|) && FormedAll(dec, items)
    case Record(w, flat) => |flat| % 2 == 0 && w.Holds(|flat| / 2) && FormedAll(dec, flat)
    case Flag(w, n) => w.Holds(n) && 20 <= n <= 22
  }

  predicate FormedAll(dec: Decoder, items: seq<Tree>) {
    items == [] || (Formed(dec, items[0]) && FormedAll(dec, items[1..]))
  }

  /** Every flag is written in the initial byte, as section 3.3 has it. */
  predicate Strict(t: Tree) {
    match t
    case Number(_, _, _) => true
    case Chars(_, _, _) => true
    case Array(_, items) => StrictAll(items)
    case Record(_, flat) => StrictAll(flat)
    case Flag(w, _) => w.W0?
  }

  predicate StrictAll(items: seq<Tree>) { items == [] || (Strict(items[0]) && StrictAll(items[1..])) }

  /** The data item: a map is the list of all its pairs, whatever their keys are. */
  function DataItem(dec: Decoder, t: Tree): Value {
    match t
    case Number(negative, _, n) => Int(if negative then -1 - n else n)
    case Chars(text, _, s) => if !text then Bytes(s) else if dec(s).Some? then Text(dec(s).value) else Null
    case Array(_, items) => List(DataItems(dec, items))
    case Record(_, flat) => Dict(Entries(DataItems(dec, flat)))
    case Flag(_, n) => if n == 22 then Null else Bool(n == 21)
  }

  function DataItems(dec: Decoder, items: seq<Tree>): seq<Value> {
    if items == [] then [] else [DataItem(dec, items[0])] + DataItems(dec, items[1..])
  }

  /** Two data items are the same: arrays element by element, maps up to the order of their pairs. */
  predicate SameItem(a: Value, b: Value)
    decreases a
  {
    match a
    case List(items) => b.List? && SameItems(items, b.items)
    case Dict(entries) => b.Dict? && |entries| == |b.entries| && Within(entries, b.entries)
    case _ => a == b
  }

  predicate SameItems(a: seq<Value>, b: seq<Value>)
    decreases a
  {
    |a| == |b| && (a == [] || (SameItem(a[0], b[0]) && SameItems(a[1..], b[1..])))
  }

  predicate SameEntry(a: Entry, b: Entry)
    decreases a
  {
    SameItem(a.key, b.key) && SameItem(a.value, b.value)
  }

  predicate Within(a: seq<Entry>, b: seq<Entry>)
    decreases a
  {
    a == [] || ((exists j :: 0 <= j < |b| && SameEntry(a[0], b[j])) && Within(a[1..], b))
  }

  /** The keys of a map are different data items. */
  predicate UniqueKeys(entries: seq<Entry>) {
    forall i, j :: 0 <= i < j < |entries| ==> !SameItem(entries[i].key, entries[j].key)
  }

  /** The keys of every map in the tree are different data items. */
  predicate KeysUnique(dec: Decoder, t: Tree) {
    match t
    case Array(_, items) => KeysUniqueAll(dec, items)
    case Record(_, flat) => UniqueKeys(Entries(DataItems(dec, flat))) && KeysUniqueAll(dec, flat)
    case _ => true
  }

  predicate KeysUniqueAll(dec: Decoder, items: seq<Tree>) {
    items == [] || (KeysUnique(dec, items[0]) && KeysUniqueAll(dec, items[1..]))
  }

  /** A valid definite-length encoding. */
  predicate Valid(dec: Decoder, t: Tree) { Formed(dec, t) && Strict(t) && KeysUnique(dec, t) }

  /** The bytes are a valid definite-length encoding of the data item. */
  ghost predicate EncodesByRfc(dec: Decoder, data: seq<Byte>, v: Value) {
    exists t :: Valid(dec, t) && Encode(t) == data && DataItem(dec, t) == v
  }

  // ----- what the reader asks of the keys -----

  /** The keys of every map in the tree are neither arrays nor maps. */
  predicate KeysScalar(t: Tree) {
    match t
    case Array(_, items) => KeysScalarAll(items)
    case Record(_, flat) => ScalarKeys(flat) && KeysScalarAll(flat)
    case _ => true
  }

  predicate KeysScalarAll(items: seq<Tree>) { items == [] || (KeysScalar(items[0]) && KeysScalarAll(items[1..])) }

  /** The keys of every map in the tree differ for the host language, to which true is 1 and false is 0. */
  predicate KeysDiffer(dec: Decoder, t: Tree) {
    match t
    case Array(_, items) => KeysDifferAll(dec, items)
    case Record(_, flat) => DistinctKeys(Entries(DataItems(dec, flat))) && KeysDifferAll(dec, flat)
    case _ => true
  }

  predicate KeysDifferAll(dec: Decoder, items: seq<Tree>) {
    items == [] || (KeysDiffer(dec, items[0]) && KeysDifferAll(dec, items[1..]))
  }

  /** The encodings that the reader knows are the well-formed ones, wide flags included, with scalar keys only. */
  lemma {:induction false} SoundIsFormed(dec: Decoder, t: Tree)
    ensures Sound(dec, t) <==> Formed(dec, t) && KeysScalar(t)
  {
    if t.Array? { SoundAllIsFormed(dec, t.items); }
    if t.Record? { SoundAllIsFormed(dec, t.flat); }
  }

  lemma {:induction false} SoundAllIsFormed(dec: Decoder, items: seq<Tree>)
    ensures SoundAll(dec, items) <==> FormedAll(dec, items) && KeysScalarAll(items)
  {
    if items != [] {
      SoundIsFormed(dec, items[0]);
      SoundAllIsFormed(dec, items[1..]);
    }
  }

  // ----- dictionaries without a lost entry -----

  predicate DistinctKeys(entries: seq<Entry>) {
    forall i, j :: 0 <= i < j < |entries| ==> !KeyEq(entries[i].key, entries[j].key)
  }

  predicate Absent(d: seq<Entry>, k: Value) { forall i :: 0 <= i < |d| ==> !KeyEq(d[i].key, k) }

  lemma {:induction false} PutAbsent(d: seq<Entry>, k: Value, v: Value)
    requires Absent(d, k)
    ensures Put(d, k, v) == d + [Entry(k, v)]
  {
    if d != [] {
      PutAbsent(d[1..], k, v);
      assert [d[0]] + (d[1..] + [Entry(k, v)]) == d + [Entry(k, v)];
    }
  }

  lemma {:induction false} PutAllDistinct(d: seq<Entry>, entries: seq<Entry>)
    requires DistinctKeys(d + entries)
    ensures PutAll(d, entries) == d + entries
    decreases entries
  {
    if entries != [] {
      var first := entries[0];
      forall i | 0 <= i < |d|
        ensures !KeyEq(d[i].key, first.key)
      {
        assert (d + entries)[i] == d[i] && (d + entries)[|d|] == first;
      }
      PutAbsent(d, first.key, first.value);
      assert d + entries == d + [first] + entries[1..];
      PutAllDistinct(d + [first], entries[1..]);
    }
  }

  lemma {:induction false} PutLength(d: seq<Entry>, k: Value, v: Value)
    ensures |Put(d, k, v)| == if Absent(d, k) then |d| + 1 else |d|
  {
    if d != [] {
      PutLength(d[1..], k, v);
      AbsentSplit(d, k);
    }
  }

  lemma AbsentSplit(d: seq<Entry>, k: Value)
    requires d != []
    ensures Absent(d, k) <==> !KeyEq(d[0].key, k) && Absent(d[1..], k)
  {
    if !KeyEq(d[0].key, k) && Absent(d[1..], k) {
      forall i | 0 <= i < |d| ensures !KeyEq(d[i].key, k) {
        if i > 0 { assert d[1..][i - 1] == d[i]; }
      }
    }
  }

  lemma {:induction false} PutAllLength(d: seq<Entry>, entries: seq<Entry>)
    ensures |PutAll(d, entries)| <= |d| + |entries|
    decreases entries
  {
    if entries != [] {
      PutLength(d, entries[0].key, entries[0].value);
      PutAllLength(Put(d, entries[0].key, entries[0].value), entries[1..]);
    }
  }

  lemma DistinctAppend(d: seq<Entry>, e: Entry)
    requires DistinctKeys(d) && Absent(d, e.key)
    ensures DistinctKeys(d + [e])
  {
  }

  /** If no entry is lost, no two keys were equal. */
  lemma {:induction false} FullMeansDistinct(d: seq<Entry>, entries: seq<Entry>)
    requires DistinctKeys(d) && |PutAll(d, entries)| == |d| + |entries|
    ensures DistinctKeys(d + entries)
    decreases entries
  {
    if entries == [] {
      assert d + entries == d;
    } else {
      var first, rest := entries[0], entries[1..];
      PutLength(d, first.key, first.value);
      PutAllLength(Put(d, first.key, first.value), rest);
      PutAbsent(d, first.key, first.value);
      DistinctAppend(d, first);
      FullMeansDistinct(d + [first], rest);
      assert d + entries == d + [first] + rest;
    }
  }

  // ----- when the reader's value is the data item -----

  /** Where no keys are equal to the host language, the value read is the data item, at every level. */
  lemma {:induction false} DifferentKeysAgree(dec: Decoder, t: Tree)
    requires KeysDiffer(dec, t)
    ensures Meaning(dec, t) == DataItem(dec, t)
    decreases t
  {
    if t.Array? { DifferentKeysAgreeAll(dec, t.items); }
    if t.Record? {
      DifferentKeysAgreeAll(dec, t.flat);
      var entries := Entries(DataItems(dec, t.flat));
      assert [] + entries == entries;
      PutAllDistinct([], entries);
    }
  }

  lemma {:induction false} DifferentKeysAgreeAll(dec: Decoder, items: seq<Tree>)
    requires KeysDifferAll(dec, items)
    ensures Meanings(dec, items) == DataItems(dec, items)
    decreases items
  {
    if items != [] {
      DifferentKeysAgree(dec, items[0]);
      DifferentKeysAgreeAll(dec, items[1..]);
    }
  }

  lemma {:induction false} EntriesLength(flat: seq<Value>)
    ensures |Entries(flat)| == |flat| / 2
    decreases |flat|
  {
    if |flat| >= 2 { EntriesLength(flat[2..]); }
  }

  lemma {:induction false} EntriesAreInjective(a: seq<Value>, b: seq<Value>)
    requires |a| == |b| && |a| % 2 == 0 && Entries(a) == Entries(b)
    ensures a == b
    decreases |a|
  {
    if a != [] {
      assert Entries(a)[1..] == Entries(a[2..]) && Entries(b)[1..] == Entries(b[2..]);
      assert Entries(a)[0] == Entry(a[0], a[1]) && Entries(b)[0] == Entry(b[0], b[1]);
      EntriesAreInjective(a[2..], b[2..]);
      TwoAndRest(a);
      TwoAndRest(b);
    }
  }

  lemma TwoAndRest(a: seq<Value>)
    requires |a| >= 2
    ensures a == [a[0], a[1]] + a[2..]
  {
  }

  lemma {:induction false} Lengths(dec: Decoder, items: seq<Tree>)
    ensures |Meanings(dec, items)| == |DataItems(dec, items)| == |items|
  {
    if items != [] { Lengths(dec, items[1..]); }
  }

  /** Where the value read is the data item, no keys were equal to the host language, at any level. */
  lemma {:induction false} AgreeingKeysDiffer(dec: Decoder, t: Tree)
    requires Formed(dec, t) && Meaning(dec, t) == DataItem(dec, t)
    ensures KeysDiffer(dec, t)
    decreases t
  {
    if t.Array? { AgreeingKeysDifferAll(dec, t.items); }
    if t.Record? {
      DictKeepsAll(dec, t.flat);
      AgreeingKeysDifferAll(dec, t.flat);
    }
  }

  lemma {:induction false} AgreeingKeysDifferAll(dec: Decoder, items: seq<Tree>)
    requires FormedAll(dec, items) && Meanings(dec, items) == DataItems(dec, items)
    ensures KeysDifferAll(dec, items)
    decreases items
  {
    if items != [] {
      assert Meanings(dec, items)[1..] == Meanings(dec, items[1..]);
      assert DataItems(dec, items)[1..] == DataItems(dec, items[1..]);
      AgreeingKeysDiffer(dec, items[0]);
      AgreeingKeysDifferAll(dec, items[1..]);
    }
  }

  lemma DictKeepsAll(dec: Decoder, flat: seq<Tree>)
    requires |flat| % 2 == 0 && PutAll([], Entries(Meanings(dec, flat))) == Entries(DataItems(dec, flat))
    ensures Meanings(dec, flat) == DataItems(dec, flat) && DistinctKeys(Entries(DataItems(dec, flat)))
  {
    var read, items := Meanings(dec, flat), DataItems(dec, flat);
    Lengths(dec, flat);
    EntriesLength(read);
    EntriesLength(items);
    assert [] + Entries(read) == Entries(read);
    FullMeansDistinct([], Entries(read));
    PutAllDistinct([], Entries(read));
    EntriesAreInjective(read, items);
  }

  // ----- unique reading -----

  lemma WidthIsRead(w: Width, addl: nat)
    requires if w.W0? then addl < 24 else addl == w.Code()
    ensures WidthOf(addl) == w
  {
  }

  /** Two heads at one place are the same head. */
  lemma HeadIsUnique(data: seq<Byte>, pos: nat, m1: nat, w1: Width, n1: nat, m2: nat, w2: Width, n2: nat)
    requires m1 < 8 && w1.Holds(n1) && At(data, pos, Head(m1, w1, n1))
    requires m2 < 8 && w2.Holds(n2) && At(data, pos, Head(m2, w2, n2))
    ensures m1 == m2 && w1 == w2 && n1 == n2
  {
    HeadReads(data, pos, m1, w1, n1);
    HeadReads(data, pos, m2, w2, n2);
    HeadWidth(data, pos, m1, w1, n1);
    HeadWidth(data, pos, m2, w2, n2);
  }

  lemma HeadWidth(data: seq<Byte>, pos: nat, major: nat, w: Width, n: nat)
    requires major < 8 && w.Holds(n) && At(data, pos, Head(major, w, n))
    ensures pos < |data| && WidthOf(data[pos] % 32) == w
  {
    var addl := if w.W0? then n else w.Code();
    AtFirst(data, pos, Head(major, w, n));
    assert data[pos] == Initial(major, addl);
    InitialReads(major, addl);
    WidthIsRead(w, addl);
  }

  lemma HeadHolds(dec: Decoder, t: Tree)
    requires Formed(dec, t)
    ensures t.w.Holds(Argument(t))
  {
  }

  /** Two well-formed encodings at one place are the same encoding. */
  lemma {:induction false} ReadingIsUnique(dec: Decoder, data: seq<Byte>, pos: nat, a: Tree, b: Tree)
    requires Formed(dec, a) && Formed(dec, b) && At(data, pos, Encode(a)) && At(data, pos, Encode(b))
    ensures a == b
    decreases a, 1
  {
    EncodeIsHeadAndBody(dec, a);
    EncodeIsHeadAndBody(dec, b);
    HeadHolds(dec, a);
    HeadHolds(dec, b);
    AtSplit(data, pos, Head(Major(a), a.w, Argument(a)), Body(a));
    AtSplit(data, pos, Head(Major(b), b.w, Argument(b)), Body(b));
    HeadIsUnique(data, pos, Major(a), a.w, Argument(a), Major(b), b.w, Argument(b));
    BodyIsUnique(dec, data, pos + |Head(Major(a), a.w, Argument(a))|, a, b);
  }

  lemma {:induction false} BodyIsUnique(dec: Decoder, data: seq<Byte>, pos: nat, a: Tree, b: Tree)
    requires Formed(dec, a) && Formed(dec, b) && Major(a) == Major(b) && a.w == b.w && Argument(a) == Argument(b)
    requires At(data, pos, Body(a)) && At(data, pos, Body(b))
    ensures a == b
    decreases a, 0
  {
    if a.Array? { ItemsAreUnique(dec, data, pos, a.items, b.items); }
    if a.Record? { ItemsAreUnique(dec, data, pos, a.flat, b.flat); }
  }

  lemma FormedOfFirst(dec: Decoder, items: seq<Tree>)
    requires items != []
    ensures FormedAll(dec, items) <==> Formed(dec, items[0]) && FormedAll(dec, items[1..])
  {
  }

  lemma FirstOfItems(data: seq<Byte>, pos: nat, items: seq<Tree>, first: seq<Byte>, rest: seq<Byte>)
    requires EncodeAll(items) == first + rest && At(data, pos, EncodeAll(items))
    ensures At(data, pos, first) && At(data, pos + |first|, rest)
  {
    AtSplit(data, pos, first, rest);
  }

  lemma {:induction false} ItemsAreUnique(dec: Decoder, data: seq<Byte>, pos: nat, a: seq<Tree>, b: seq<Tree>)
    requires FormedAll(dec, a) && FormedAll(dec, b) && |a| == |b|
    requires At(data, pos, EncodeAll(a)) && At(data, pos, EncodeAll(b))
    ensures a == b
    decreases a, 0
  {
    if a != [] {
      EncodeFirst(a);
      EncodeFirst(b);
      FormedOfFirst(dec, a);
      FormedOfFirst(dec, b);
      FirstOfItems(data, pos, a, Encode(a[0]), EncodeAll(a[1..]));
      FirstOfItems(data, pos, b, Encode(b[0]), EncodeAll(b[1..]));
      ReadingIsUnique(dec, data, pos, a[0], b[0]);
      ItemsAreUnique(dec, data, pos + |Encode(a[0])|, a[1..], b[1..]);
      assert a == [a[0]] + a[1..] && b == [b[0]] + b[1..];
    }
  }

  /** No two well-formed encodings share their bytes. */
  lemma EncodeIsInjective(dec: Decoder, a: Tree, b: Tree)
    requires Formed(dec, a) && Formed(dec, b) && Encode(a) == Encode(b)
    ensures a == b
  {
    var data := Encode(a);
    assert data[0..0 + |data|] == data;
    ReadingIsUnique(dec, data, 0, a, b);
  }

  // ----- exactly when the reader follows the RFC -----

  /** A well-formed encoding loads if and only if no map in it has an array or a map for a key. */
  lemma LoadsExactly(dec: Decoder, t: Tree)
    requires Formed(dec, t)
    ensures Loads(dec, Encode(t)).Got? <==> KeysScalar(t)
    ensures KeysScalar(t) ==> Loads(dec, Encode(t)).value == Meaning(dec, t)
  {
    SoundIsFormed(dec, t);
    if KeysScalar(t) { EncodingLoads(dec, t); }
    if Loads(dec, Encode(t)).Got? {
      var u := OnlyEncodingsLoad(dec, Encode(t));
      SoundIsFormed(dec, u);
      EncodeIsInjective(dec, u, t);
    }
  }

  /**
   A well-formed encoding, and so every valid one, loads as its data item if and only if, at every level, the keys of
   its maps are scalar and differ for the host language.
   */
  lemma RfcEncodingLoads(dec: Decoder, t: Tree)
    requires Formed(dec, t)
    ensures var r := Loads(dec, Encode(t));
            r.Got? && r.value == DataItem(dec, t) <==> KeysScalar(t) && KeysDiffer(dec, t)
  {
    LoadsExactly(dec, t);
    if KeysDiffer(dec, t) { DifferentKeysAgree(dec, t); }
    if KeysScalar(t) && Meaning(dec, t) == DataItem(dec, t) { AgreeingKeysDiffer(dec, t); }
  }

  lemma ScalarsAreSame(a: Value, b: Value)
    requires Hashable(a) && SameItem(a, b)
    ensures a == b
  {
  }

  lemma {:induction false} KeyIsHashable(dec: Decoder, flat: seq<Tree>, i: nat)
    requires ScalarKeys(flat) && i < |Entries(DataItems(dec, flat))|
    ensures Hashable(Entries(DataItems(dec, flat))[i].key)
  {
    var items := DataItems(dec, flat);
    Lengths(dec, flat);
    EntriesLength(items);
    EntryIndex(items, i);
    ScalarKeyAt(flat, 2 * i);
    DataItemAt(dec, flat, 2 * i);
  }

  lemma {:induction false} EntryIndex(flat: seq<Value>, i: nat)
    requires i < |Entries(flat)|
    ensures 2 * i + 1 < |flat| && Entries(flat)[i] == Entry(flat[2 * i], flat[2 * i + 1])
    decreases |flat|
  {
    if i > 0 { EntryIndex(flat[2..], i - 1); }
  }

  lemma {:induction false} DataItemAt(dec: Decoder, items: seq<Tree>, i: nat)
    requires i < |items|
    ensures |DataItems(dec, items)| == |items| && DataItems(dec, items)[i] == DataItem(dec, items[i])
  {
    Lengths(dec, items);
    if i > 0 { DataItemAt(dec, items[1..], i - 1); }
  }

  /** Scalar keys that differ for the host language are different data items. */
  lemma {:induction false} DifferentKeysAreUnique(dec: Decoder, t: Tree)
    requires KeysScalar(t) && KeysDiffer(dec, t)
    ensures KeysUnique(dec, t)
    decreases t
  {
    if t.Array? { DifferentKeysAreUniqueAll(dec, t.items); }
    if t.Record? {
      DifferentKeysAreUniqueAll(dec, t.flat);
      UniqueByHost(dec, t.flat);
    }
  }

  lemma UniqueByHost(dec: Decoder, flat: seq<Tree>)
    requires ScalarKeys(flat) && DistinctKeys(Entries(DataItems(dec, flat)))
    ensures UniqueKeys(Entries(DataItems(dec, flat)))
  {
    var entries := Entries(DataItems(dec, flat));
    forall i, j | 0 <= i < j < |entries| ensures !SameItem(entries[i].key, entries[j].key) {
      KeyIsHashable(dec, flat, i);
      if SameItem(entries[i].key, entries[j].key) { ScalarsAreSame(entries[i].key, entries[j].key); }
    }
  }

  lemma {:induction false} DifferentKeysAreUniqueAll(dec: Decoder, items: seq<Tree>)
    requires KeysScalarAll(items) && KeysDifferAll(dec, items)
    ensures KeysUniqueAll(dec, items)
    decreases items
  {
    if items != [] {
      DifferentKeysAreUnique(dec, items[0]);
      DifferentKeysAreUniqueAll(dec, items[1..]);
    }
  }

  /**
   Bytes that load have one well-formed encoding, and are a valid encoding of the value returned if and only if no flag
   in it is written in a wider form and, at every level, the keys of its maps differ for the host language.
   */
  lemma LoadedBytesByRfc(dec: Decoder, data: seq<Byte>) returns (t: Tree)
    requires Loads(dec, data).Got?
    ensures Formed(dec, t) && Encode(t) == data
    ensures forall other :: Formed(dec, other) && Encode(other) == data ==> other == t
    ensures EncodesByRfc(dec, data, Loads(dec, data).value) <==> Strict(t) && KeysDiffer(dec, t)
  {
    t := OnlyEncodingsLoad(dec, data);
    SoundIsFormed(dec, t);
    forall other | Formed(dec, other) && Encode(other) == data ensures other == t { EncodeIsInjective(dec, other, t); }
    RfcEncodingLoads(dec, t);
    if Strict(t) && KeysDiffer(dec, t) { DifferentKeysAreUnique(dec, t); }
  }

  /** An encoding that the reader knows, without equal keys at any level, loads as its data item with all its pairs. */
  lemma MapLoads(dec: Decoder, t: Tree)
    requires Sound(dec, t) && KeysDiffer(dec, t)
    ensures var r := Loads(dec, Encode(t)); r.Got? && r.value == DataItem(dec, t)
  {
    SoundIsFormed(dec, t);
    RfcEncodingLoads(dec, t);
  }

  /** A map whose own keys differ loads as exactly its entries, in order, whatever lies inside them. */
  lemma TopMapLoads(dec: Decoder, w: Width, flat: seq<Tree>)
    requires Sound(dec, Record(w, flat)) && DistinctKeys(Entries(Meanings(dec, flat)))
    ensures var r := Loads(dec, Encode(Record(w, flat))); r.Got? && r.value == Dict(Entries(Meanings(dec, flat)))
  {
    EncodingLoads(dec, Record(w, flat));
    var entries := Entries(Meanings(dec, flat));
    assert [] + entries == entries;
    PutAllDistinct([], entries);
  }

  /**
   The reader takes 20, 21 and 22 for flags in every width. By the RFC the one-byte form is ill-formed for values
   below 32, and the two, four and eight byte forms are floats.
   */
  lemma WideFlagLoads(dec: Decoder, w: Width, n: nat)
    requires w.Holds(n) && 20 <= n <= 22
    ensures var r := Loads(dec, Encode(Flag(w, n)));
            && r.Got? && r.value == (if n == 22 then Null else Bool(n == 21))
            && (EncodesByRfc(dec, Encode(Flag(w, n)), r.value) <==> w.W0?)
  {
    LoadsExactly(dec, Flag(w, n));
    var t := LoadedBytesByRfc(dec, Encode(Flag(w, n)));
    assert t == Flag(w, n);
  }

  // ----- inputs on which the reader and the RFC differ -----

  function Small(n: nat): Tree { Number(false, W0, n) }

  lemma EncodeTwo(a: Tree, b: Tree)
    ensures EncodeAll([a, b]) == Encode(a) + Encode(b)
  {
    assert [a, b][1..] == [b] && [b][1..] == [];
    assert EncodeAll([b]) == Encode(b) + EncodeAll([]);
  }

  lemma EncodeFour(a: Tree, b: Tree, c: Tree, d: Tree)
    ensures EncodeAll([a, b, c, d]) == Encode(a) + (Encode(b) + (Encode(c) + Encode(d)))
  {
    assert [a, b, c, d][1..] == [b, c, d] && [b, c, d][1..] == [c, d];
    EncodeTwo(c, d);
  }

  lemma ItemsOfTwo(dec: Decoder, c: Tree, d: Tree)
    ensures DataItems(dec, [c, d]) == [DataItem(dec, c), DataItem(dec, d)]
  {
    assert [c, d][1..] == [d] && [d][1..] == [];
    assert DataItems(dec, [d]) == [DataItem(dec, d)] + DataItems(dec, []);
  }

  lemma ItemsOfFour(dec: Decoder, a: Tree, b: Tree, c: Tree, d: Tree)
    ensures DataItems(dec, [a, b, c, d]) == [DataItem(dec, a), DataItem(dec, b), DataItem(dec, c), DataItem(dec, d)]
  {
    assert [a, b, c, d][1..] == [b, c, d] && [b, c, d][1..] == [c, d];
    ItemsOfTwo(dec, c, d);
    assert DataItems(dec, [b, c, d]) == [DataItem(dec, b)] + DataItems(dec, [c, d]);
  }

  lemma EntriesOfFour(a: Value, b: Value, c: Value, d: Value)
    ensures Entries([a, b, c, d]) == [Entry(a, b), Entry(c, d)]
  {
    assert [a, b, c, d][2..] == [c, d] && [c, d][2..] == [];
    assert Entries([c, d]) == [Entry(c, d)] + Entries([]);
  }

  /** Trees that hold no map with a key the reader or the RFC objects to. */
  predicate AllGood(dec: Decoder, items: seq<Tree>) {
    && FormedAll(dec, items) && StrictAll(items) && KeysScalarAll(items)
    && KeysUniqueAll(dec, items) && KeysDifferAll(dec, items)
  }

  /** A tree that is no array and no map, strict and well-formed. */
  predicate Plain(dec: Decoder, t: Tree) { IsScalar(t) && Formed(dec, t) && Strict(t) }

  lemma PlainKeys(dec: Decoder, t: Tree)
    requires IsScalar(t)
    ensures KeysScalar(t) && KeysUnique(dec, t) && KeysDiffer(dec, t)
  {
  }

  lemma PlainInFront(dec: Decoder, t: Tree, rest: seq<Tree>)
    requires Plain(dec, t) && AllGood(dec, rest)
    ensures AllGood(dec, [t] + rest)
  {
    PlainKeys(dec, t);
    var all := [t] + rest;
    assert all[0] == t && all[1..] == rest && all != [];
  }

  lemma PlainFour(dec: Decoder, a: Tree, b: Tree, c: Tree, d: Tree)
    requires Plain(dec, a) && Plain(dec, b) && Plain(dec, c) && Plain(dec, d)
    ensures AllGood(dec, [a, b, c, d]) && ScalarKeys([a, b, c, d])
  {
    PlainInFront(dec, d, []);
    PlainInFront(dec, c, [d]);
    PlainInFront(dec, b, [c, d]);
    PlainInFront(dec, a, [b, c, d]);
    assert [d] + [] == [d] && [c] + [d] == [c, d] && [b] + [c, d] == [b, c, d] && [a] + [b, c, d] == [a, b, c, d];
    assert [a, b, c, d][2..] == [c, d] && [c, d][2..] == [];
  }

  /** A map of good trees is as good as its own keys are. */
  lemma GoodRecord(dec: Decoder, t: Tree, flat: seq<Tree>)
    requires t == Record(W0, flat) && |flat| % 2 == 0 && |flat| < 48 && AllGood(dec, flat)
    ensures Formed(dec, t) && Strict(t)
    ensures DataItem(dec, t) == Dict(Entries(DataItems(dec, flat)))
    ensures KeysUnique(dec, t) <==> UniqueKeys(Entries(DataItems(dec, flat)))
    ensures KeysDiffer(dec, t) <==> DistinctKeys(Entries(DataItems(dec, flat)))
    ensures KeysScalar(t) <==> ScalarKeys(flat)
  {
  }

  lemma TwoKeys(a: Entry, b: Entry)
    ensures UniqueKeys([a, b]) <==> !SameItem(a.key, b.key)
    ensures DistinctKeys([a, b]) <==> !KeyEq(a.key, b.key)
  {
    assert [a, b][0] == a && [a, b][1] == b;
  }

  /** A map of two plain pairs, as a tree. */
  lemma TwoPairs(dec: Decoder, t: Tree, a: Tree, b: Tree, c: Tree, d: Tree)
    requires Plain(dec, a) && Plain(dec, b) && Plain(dec, c) && Plain(dec, d) && t == Record(W0, [a, b, c, d])
    ensures Formed(dec, t) && Strict(t) && KeysScalar(t)
    ensures DataItem(dec, t) ==
              Dict([Entry(DataItem(dec, a), DataItem(dec, b)), Entry(DataItem(dec, c), DataItem(dec, d))])
    ensures KeysUnique(dec, t) <==> !SameItem(DataItem(dec, a), DataItem(dec, c))
    ensures KeysDiffer(dec, t) <==> !KeyEq(DataItem(dec, a), DataItem(dec, c))
  {
    var k, v, l, w := DataItem(dec, a), DataItem(dec, b), DataItem(dec, c), DataItem(dec, d);
    PlainFour(dec, a, b, c, d);
    GoodRecord(dec, t, [a, b, c, d]);
    ItemsOfFour(dec, a, b, c, d);
    EntriesOfFour(k, v, l, w);
    TwoKeys(Entry(k, v), Entry(l, w));
  }

  lemma EncodeRecord(t: Tree, flat: seq<Tree>)
    requires t == Record(W0, flat)
    ensures Encode(t) == [Initial(5, |flat| / 2)] + EncodeAll(flat)
  {
  }

  lemma PlainSmall(dec: Decoder, n: nat)
    requires n < 24
    ensures Plain(dec, Small(n)) && Encode(Small(n)) == [n] && DataItem(dec, Small(n)) == Int(n)
  {
  }

  lemma PlainTrue(dec: Decoder)
    ensures Plain(dec, Flag(W0, 21)) && Encode(Flag(W0, 21)) == [0xf5] && DataItem(dec, Flag(W0, 21)) == Bool(true)
  {
  }

  /** What the reader makes of two pairs under equal keys. */
  lemma TwoMerge(dec: Decoder, t: Tree)
    requires Formed(dec, t) && KeysScalar(t) && !KeysDiffer(dec, t)
    ensures var r := Loads(dec, Encode(t));
            r.Got? && r.value == Meaning(dec, t) && !EncodesByRfc(dec, Encode(t), r.value)
  {
    LoadsExactly(dec, t);
    var u := LoadedBytesByRfc(dec, Encode(t));
    assert u == t;
  }

  lemma ScalarMeaning(dec: Decoder, t: Tree)
    requires IsScalar(t)
    ensures Meaning(dec, t) == DataItem(dec, t)
  {
  }

  lemma MeaningOfFour(dec: Decoder, t: Tree, a: Tree, b: Tree, c: Tree, d: Tree)
    requires t == Record(W0, [a, b, c, d]) && IsScalar(a) && IsScalar(b) && IsScalar(c) && IsScalar(d)
    requires KeyEq(DataItem(dec, a), DataItem(dec, c))
    ensures Meaning(dec, t) == Dict([Entry(DataItem(dec, a), DataItem(dec, d))])
  {
    var k, v, l, w := DataItem(dec, a), DataItem(dec, b), DataItem(dec, c), DataItem(dec, d);
    ScalarMeaning(dec, a);
    ScalarMeaning(dec, b);
    ScalarMeaning(dec, c);
    ScalarMeaning(dec, d);
    MeaningsOfFour(dec, a, b, c, d);
    EntriesOfFour(k, v, l, w);
    PutBoth(Entry(k, v), Entry(l, w));
  }

  lemma PutBoth(a: Entry, b: Entry)
    requires KeyEq(a.key, b.key)
    ensures PutAll([], [a, b]) == [Entry(a.key, b.value)]
  {
    assert [a, b][1..] == [b] && [b][1..] == [];
    assert Put([], a.key, a.value) == [a];
    assert Put([a], b.key, b.value) == [Entry(a.key, b.value)] + [a][1..];
    assert PutAll([], [a, b]) == PutAll([a], [b]);
    assert PutAll([a], [b]) == PutAll(Put([a], b.key, b.value), []);
  }

  lemma MeaningsOfFour(dec: Decoder, a: Tree, b: Tree, c: Tree, d: Tree)
    ensures Meanings(dec, [a, b, c, d]) == [Meaning(dec, a), Meaning(dec, b), Meaning(dec, c), Meaning(dec, d)]
  {
    assert [a, b, c, d][1..] == [b, c, d] && [b, c, d][1..] == [c, d] && [c, d][1..] == [d] && [d][1..] == [];
    assert Meanings(dec, [d]) == [Meaning(dec, d)] + Meanings(dec, []);
    assert Meanings(dec, [c, d]) == [Meaning(dec, c)] + Meanings(dec, [d]);
    assert Meanings(dec, [b, c, d]) == [Meaning(dec, b)] + Meanings(dec, [c, d]);
  }

  /** The bytes of a tree encode its data item by the RFC when the tree is valid. */
  lemma ValidEncodes(dec: Decoder, t: Tree, data: seq<Byte>, v: Value)
    requires Formed(dec, t) && Strict(t) && KeysUnique(dec, t) && Encode(t) == data && DataItem(dec, t) == v
    ensures EncodesByRfc(dec, data, v)
  {
  }

  lemma OneAndTrue(dec: Decoder, t: Tree)
    requires t == Record(W0, [Small(1), Small(0), Flag(W0, 21), Small(0)])
    ensures Formed(dec, t) && Strict(t) && KeysScalar(t) && KeysUnique(dec, t) && !KeysDiffer(dec, t)
    ensures DataItem(dec, t) == Dict([Entry(Int(1), Int(0)), Entry(Bool(true), Int(0))])
    ensures Meaning(dec, t) == Dict([Entry(Int(1), Int(0))])
  {
    var a, b, c := Small(1), Small(0), Flag(W0, 21);
    PlainSmall(dec, 1);
    PlainSmall(dec, 0);
    PlainTrue(dec);
    TwoPairs(dec, t, a, b, c, b);
    MeaningOfFour(dec, t, a, b, c, b);
  }

  lemma OneAndTrueBytes(dec: Decoder, t: Tree)
    requires t == Record(W0, [Small(1), Small(0), Flag(W0, 21), Small(0)])
    ensures Encode(t) == [0xa2, 1, 0, 0xf5, 0]
  {
    PlainSmall(dec, 1);
    PlainSmall(dec, 0);
    PlainTrue(dec);
    EncodeRecord(t, [Small(1), Small(0), Flag(W0, 21), Small(0)]);
    EncodeFour(Small(1), Small(0), Flag(W0, 21), Small(0));
  }

  /** {1: 0, true: 0} is a valid map of two pairs; the reader returns one of them. */
  lemma MergedKeysHappen(dec: Decoder) returns (data: seq<Byte>)
    ensures data == [0xa2, 1, 0, 0xf5, 0]
    ensures EncodesByRfc(dec, data, Dict([Entry(Int(1), Int(0)), Entry(Bool(true), Int(0))]))
    ensures var r := Loads(dec, data);
            r.Got? && r.value == Dict([Entry(Int(1), Int(0))]) && !EncodesByRfc(dec, data, r.value)
  {
    var t := Record(W0, [Small(1), Small(0), Flag(W0, 21), Small(0)]);
    data := [0xa2, 1, 0, 0xf5, 0];
    OneAndTrueBytes(dec, t);
    OneAndTrue(dec, t);
    ValidEncodes(dec, t, data, DataItem(dec, t));
    TwoMerge(dec, t);
  }

  lemma ZeroTwice(dec: Decoder, t: Tree)
    requires t == Record(W0, [Small(0), Small(0), Small(0), Small(1)])
    ensures Formed(dec, t) && KeysScalar(t) && !KeysUnique(dec, t) && !KeysDiffer(dec, t)
    ensures Meaning(dec, t) == Dict([Entry(Int(0), Int(1))])
  {
    var a, d := Small(0), Small(1);
    PlainSmall(dec, 1);
    PlainSmall(dec, 0);
    TwoPairs(dec, t, a, a, a, d);
    MeaningOfFour(dec, t, a, a, a, d);
  }

  lemma ZeroTwiceBytes(dec: Decoder, t: Tree)
    requires t == Record(W0, [Small(0), Small(0), Small(0), Small(1)])
    ensures Encode(t) == [0xa2, 0, 0, 0, 1]
  {
    PlainSmall(dec, 1);
    PlainSmall(dec, 0);
    EncodeRecord(t, [Small(0), Small(0), Small(0), Small(1)]);
    EncodeFour(Small(0), Small(0), Small(0), Small(1));
  }

  /** A tree whose keys are not unique has bytes that encode nothing by the RFC. */
  lemma NotUniqueEncodesNothing(dec: Decoder, t: Tree, v: Value)
    requires Formed(dec, t) && !KeysUnique(dec, t)
    ensures !EncodesByRfc(dec, Encode(t), v)
  {
    forall other | Formed(dec, other) && Encode(other) == Encode(t)
      ensures other == t
    {
      EncodeIsInjective(dec, other, t);
    }
  }

  /** A map with the key 0 twice is not valid, but it loads. */
  lemma DuplicateKeysHappen(dec: Decoder) returns (data: seq<Byte>)
    ensures data == [0xa2, 0, 0, 0, 1]
    ensures forall v :: !EncodesByRfc(dec, data, v)
    ensures var r := Loads(dec, data); r.Got? && r.value == Dict([Entry(Int(0), Int(1))])
  {
    var t := Record(W0, [Small(0), Small(0), Small(0), Small(1)]);
    data := [0xa2, 0, 0, 0, 1];
    ZeroTwiceBytes(dec, t);
    ZeroTwice(dec, t);
    TwoMerge(dec, t);
    forall v ensures !EncodesByRfc(dec, data, v) { NotUniqueEncodesNothing(dec, t, v); }
  }

  lemma ArrayKeyTree(dec: Decoder, t: Tree)
    requires t == Record(W0, [Array(W0, []), Small(0)])
    ensures Formed(dec, t) && Strict(t) && KeysUnique(dec, t) && !KeysScalar(t)
    ensures DataItem(dec, t) == Dict([Entry(List([]), Int(0))])
  {
    var key, value := Array(W0, []), Small(0);
    PlainSmall(dec, 0);
    PlainInFront(dec, value, []);
    EmptyArrayInFront(dec, [value]);
    assert [value] + [] == [value] && [key] + [value] == [key, value];
    GoodRecord(dec, t, [key, value]);
    ItemsOfTwo(dec, key, value);
    EntriesOfPair(List([]), Int(0));
  }

  lemma EntriesOfPair(key: Value, value: Value)
    ensures Entries([key, value]) == [Entry(key, value)] && UniqueKeys([Entry(key, value)])
  {
    assert Entries([key, value]) == [Entry(key, value)] + Entries([]);
  }

  lemma ArrayKeyBytes(dec: Decoder, t: Tree)
    requires t == Record(W0, [Array(W0, []), Small(0)])
    ensures Encode(t) == [0xa1, 0x80, 0]
  {
    var key, value := Array(W0, []), Small(0);
    PlainSmall(dec, 0);
    assert Encode(key) == [0x80];
    EncodeRecord(t, [key, value]);
    EncodeTwo(key, value);
  }

  /** {[]: 0} is a valid map; the reader refuses it. */
  lemma ArrayKeyHappens(dec: Decoder) returns (data: seq<Byte>)
    ensures data == [0xa1, 0x80, 0]
    ensures EncodesByRfc(dec, data, Dict([Entry(List([]), Int(0))])) && Loads(dec, data).Fail?
  {
    var t := Record(W0, [Array(W0, []), Small(0)]);
    data := [0xa1, 0x80, 0];
    ArrayKeyBytes(dec, t);
    ArrayKeyTree(dec, t);
    ValidEncodes(dec, t, data, DataItem(dec, t));
    LoadsExactly(dec, t);
  }

  lemma EmptyArrayInFront(dec: Decoder, rest: seq<Tree>)
    requires AllGood(dec, rest)
    ensures AllGood(dec, [Array(W0, [])] + rest) && Encode(Array(W0, [])) == [0x80]
    ensures DataItem(dec, Array(W0, [])) == List([])
  {
    var t := Array(W0, []);
    var all := [t] + rest;
    assert all[0] == t && all[1..] == rest && all != [];
    assert KeysScalar(t) && KeysUnique(dec, t) && KeysDiffer(dec, t) && Formed(dec, t) && Strict(t);
    assert Head(4, W0, 0) == [0x80] && EncodeAll([]) == [];
  }
}
