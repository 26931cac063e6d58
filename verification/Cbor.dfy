/**
 The CBOR reader of the passkey ceremony: what an item at a position decodes to,
 how many item reads that starts, and which byte strings are encodings of which values.
 Text decoding is a parameter; it may refuse its bytes.
 */
module Cbor {
  import opened Prelude

  type Byte = x: int | 0 <= x < 256
  type Decoder = seq<Byte> -> Option<string>

  datatype Value =
    | Int(i: int)
    | Bytes(b: seq<Byte>)
    | Text(t: string)
    | List(items: seq<Value>)
    | Dict(entries: seq<Entry>)
    | Bool(truth: bool)
    | Null
  datatype Entry = Entry(key: Value, value: Value)

  datatype Error = Malformed | Indefinite | Unsupported | BadText | Unhashable | Trailing

  /** `starts` counts the item reads begun, whether or not they came to an end. */
  datatype Parse<T> = Got(value: T, next: nat, starts: nat) | Fail(error: Error, starts: nat)
  {
    function More(k: nat): Parse<T> { this.(starts := starts + k) }
  }

  // ----- dictionaries -----

  predicate Hashable(v: Value) { !v.List? && !v.Dict? }

  function Number(v: Value): Option<int> {
    if v.Int? then Some(v.i) else if v.Bool? then Some(if v.truth then 1 else 0) else None
  }

  /** Key equality of the host language: true is 1 and false is 0. */
  predicate KeyEq(a: Value, b: Value) { a == b || (Number(a).Some? && Number(a) == Number(b)) }

  /** Storing under an equal key keeps the old key and its place. */
  function Put(d: seq<Entry>, k: Value, v: Value): seq<Entry> {
    if d == [] then [Entry(k, v)]
    else if KeyEq(d[0].key, k) then [Entry(d[0].key, v)] + d[1..]
    else [d[0]] + Put(d[1..], k, v)
  }

  function Lookup(d: seq<Entry>, k: Value): Option<Value> {
    if d == [] then None else if KeyEq(d[0].key, k) then Some(d[0].value) else Lookup(d[1..], k)
  }

  lemma {:induction false} LookupPut(d: seq<Entry>, k: Value, v: Value, other: Value)
    ensures Lookup(Put(d, k, v), other) == if KeyEq(k, other) then Some(v) else Lookup(d, other)
  {
    if d != [] && !KeyEq(d[0].key, k) { LookupPut(d[1..], k, v, other); }
  }

  // ----- arguments -----

  function FromBigEndian(s: seq<Byte>): nat { if s == [] then 0 else FromBigEndian(s[..|s| - 1]) * 256 + s[|s| - 1] }

  function ToBigEndian(n: nat, k: nat): (s: seq<Byte>)
    ensures |s| == k
  {
    if k == 0 then [] else ToBigEndian(n / 256, k - 1) + [n % 256]
  }

  function Pow256(k: nat): (p: nat) ensures p > 0 { if k == 0 then 1 else 256 * Pow256(k - 1) }

  lemma {:induction false} BigEndianRoundTrip(n: nat, k: nat)
    requires n < Pow256(k)
    ensures FromBigEndian(ToBigEndian(n, k)) == n
  {
    if k > 0 { BigEndianRoundTrip(n / 256, k - 1); }
  }

  lemma {:induction false} BigEndianIsUnique(s: seq<Byte>)
    ensures FromBigEndian(s) < Pow256(|s|) && ToBigEndian(FromBigEndian(s), |s|) == s
  {
    if s != [] {
      BigEndianIsUnique(s[..|s| - 1]);
      assert FromBigEndian(s) / 256 == FromBigEndian(s[..|s| - 1]);
    }
  }

  /** The number of argument bytes that follow an initial byte; None for the indefinite and reserved forms. */
  function ArgBytes(addl: nat): Option<nat> {
    if addl < 24 then Some(0) else if addl == 24 then Some(1) else if addl == 25 then Some(2)
    else if addl == 26 then Some(4) else if addl == 27 then Some(8) else None
  }

  predicate Fits(data: seq<Byte>, pos: nat, n: nat) { pos + n <= |data| }

  // ----- what an item decodes to -----

  /** The argument of the item whose initial byte is just before `pos`. */
  function ArgAt(data: seq<Byte>, pos: nat, addl: nat): (r: Parse<nat>)
    requires pos <= |data|
    ensures r.Got? ==> pos <= r.next <= |data|
    ensures r.starts == 0
  {
    if addl < 24 then Got(addl, pos, 0)
    else if ArgBytes(addl).None? then Fail(Indefinite, 0)
    else if !Fits(data, pos, ArgBytes(addl).value) then Fail(Malformed, 0)
    else Got(FromBigEndian(data[pos..pos + ArgBytes(addl).value]), pos + ArgBytes(addl).value, 0)
  }

  function StringAt(dec: Decoder, data: seq<Byte>, pos: nat, major: nat, n: nat): (r: Parse<Value>)
    requires pos <= |data|
    ensures r.Got? ==> pos <= r.next <= |data|
    ensures r.starts == 0
  {
    if !Fits(data, pos, n) then Fail(Malformed, 0)
    else
      var s := data[pos..pos + n];
      if major == 2 then Got(Bytes(s), pos + n, 0)
      else if dec(s).None? then Fail(BadText, 0)
      else Got(Text(dec(s).value), pos + n, 0)
  }

  function Simple(n: nat, pos: nat): (r: Parse<Value>)
    ensures r.Got? ==> r.next == pos
    ensures r.starts == 0
  {
    if n == 20 then Got(Bool(false), pos, 0) else if n == 21 then Got(Bool(true), pos, 0)
    else if n == 22 then Got(Null, pos, 0) else Fail(Unsupported, 0)
  }

  /**
   Item reads begin at distinct bytes, but for one at the end, so no claimed length can make the reader begin more.
   */
  function ItemAt(dec: Decoder, data: seq<Byte>, pos: nat): (r: Parse<Value>)
    requires pos <= |data|
    ensures r.Got? ==> pos < r.next <= |data| && r.starts <= r.next - pos
    ensures r.Fail? ==> r.starts <= |data| - pos + 1
    decreases |data| - pos, 0
  {
    if pos == |data| then Fail(Malformed, 1)
    else
      var arg := ArgAt(data, pos + 1, data[pos] % 32);
      if arg.Fail? then Fail(arg.error, 1) else BodyAt(dec, data, arg.next, data[pos] / 32, arg.value).More(1)
  }

  /** The rest of an item, after its major type and its argument n. */
  function BodyAt(dec: Decoder, data: seq<Byte>, pos: nat, major: nat, n: nat): (r: Parse<Value>)
    requires pos <= |data|
    ensures r.Got? ==> pos <= r.next <= |data| && r.starts <= r.next - pos
    ensures r.Fail? ==> r.starts <= |data| - pos + 1
    decreases |data| - pos, 3
  {
    if major == 0 then Got(Int(n), pos, 0)
    else if major == 1 then Got(Int(-1 - n), pos, 0)
    else if major == 2 || major == 3 then StringAt(dec, data, pos, major, n)
    else if major == 4 then
      var all := ItemsAt(dec, data, pos, n, []);
      if all.Fail? then Fail(all.error, all.starts) else Got(List(all.value), all.next, all.starts)
    else if major == 5 then
      var all := EntriesAt(dec, data, pos, n, []);
      if all.Fail? then Fail(all.error, all.starts) else Got(Dict(all.value), all.next, all.starts)
    else if major == 7 then Simple(n, pos)
    else Fail(Unsupported, 0)
  }

  function ItemsAt(dec: Decoder, data: seq<Byte>, pos: nat, n: nat, done: seq<Value>): (r: Parse<seq<Value>>)
    requires pos <= |data|
    ensures r.Got? ==> pos <= r.next <= |data| && r.starts <= r.next - pos
    ensures r.Fail? ==> r.starts <= |data| - pos + 1
    decreases |data| - pos, 1
  {
    if n == 0 then Got(done, pos, 0)
    else
      var item := ItemAt(dec, data, pos);
      if item.Fail? then Fail(item.error, item.starts)
      else ItemsAt(dec, data, item.next, n - 1, done + [item.value]).More(item.starts)
  }

  /** Key before value; an unhashable key is refused only after its value was read. */
  function EntryAt(dec: Decoder, data: seq<Byte>, pos: nat): (r: Parse<Entry>)
    requires pos <= |data|
    ensures r.Got? ==> pos < r.next <= |data| && r.starts <= r.next - pos
    ensures r.Fail? ==> r.starts <= |data| - pos + 1
    decreases |data| - pos, 1
  {
    var key := ItemAt(dec, data, pos);
    if key.Fail? then Fail(key.error, key.starts)
    else
      var value := ItemAt(dec, data, key.next);
      if value.Fail? then Fail(value.error, key.starts + value.starts)
      else if !Hashable(key.value) then Fail(Unhashable, key.starts + value.starts)
      else Got(Entry(key.value, value.value), value.next, key.starts + value.starts)
  }

  function EntriesAt(dec: Decoder, data: seq<Byte>, pos: nat, n: nat, done: seq<Entry>): (r: Parse<seq<Entry>>)
    requires pos <= |data|
    ensures r.Got? ==> pos <= r.next <= |data| && r.starts <= r.next - pos
    ensures r.Fail? ==> r.starts <= |data| - pos + 1
    decreases |data| - pos, 2
  {
    if n == 0 then Got(done, pos, 0)
    else
      var entry := EntryAt(dec, data, pos);
      if entry.Fail? then Fail(entry.error, entry.starts)
      else EntriesAt(dec, data, entry.next, n - 1, Put(done, entry.value.key, entry.value.value)).More(entry.starts)
  }

  function Loads(dec: Decoder, data: seq<Byte>): (r: Parse<Value>)
    ensures r.starts <= |data| + 1
    ensures r.Got? ==> r.next == |data|
  {
    var item := ItemAt(dec, data, 0);
    if item.Got? && item.next != |data| then Fail(Trailing, item.starts) else item
  }
}
