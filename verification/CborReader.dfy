/** The reader object: a position that advances through the bytes, by recursion and counted loops. */
module CborReader {
  import opened Prelude
  import opened Cbor

  datatype Result<T> = Ok(value: T) | Err(error: Error)

  /** The reader's answer and final position are those of a parse; after an error the position no longer matters. */
  predicate Agrees<T(==)>(r: Result<T>, pos: nat, parse: Parse<T>) {
    if r.Ok? then parse.Got? && parse.value == r.value && parse.next == pos else parse.Fail? && parse.error == r.error
  }

  class Reader {
    const dec: Decoder
    const data: seq<Byte>
    var pos: nat
    ghost var starts: nat

    constructor (dec: Decoder, data: seq<Byte>)
      ensures this.dec == dec && this.data == data && pos == 0 && starts == 0
    {
      this.dec, this.data := dec, data;
      pos, starts := 0, 0;
    }

    method Read(n: nat) returns (r: Result<seq<Byte>>)
      requires pos <= |data|
      modifies this`pos
      ensures pos <= |data|
      ensures r == if Fits(data, old(pos), n) then Ok(data[old(pos)..old(pos) + n]) else Err(Malformed)
      ensures pos == if r.Ok? then old(pos) + n else old(pos)
    {
      if pos + n > |data| { return Err(Malformed); }
      r := Ok(data[pos..pos + n]);
      pos := pos + n;
    }

    method Val(addl: nat) returns (r: Result<nat>)
      requires pos <= |data|
      modifies this`pos
      ensures old(pos) <= pos <= |data| && Agrees(r, pos, ArgAt(data, old(pos), addl))
    {
      if addl < 24 { return Ok(addl); }
      var k := 0;
      if addl == 24 { k := 1; }
      if addl == 25 { k := 2; }
      if addl == 26 { k := 4; }
      if addl == 27 { k := 8; }
      if k == 0 { return Err(Indefinite); }
      var bytes := Read(k);
      if bytes.Err? { return Err(bytes.error); }
      return Ok(FromBigEndian(bytes.value));
    }

    method Item() returns (r: Result<Value>)
      requires pos <= |data|
      modifies this
      ensures old(pos) <= pos <= |data| && Agrees(r, pos, ItemAt(dec, data, old(pos)))
      ensures starts == old(starts) + ItemAt(dec, data, old(pos)).starts
      decreases |data| - pos, 0
    {
      starts := starts + 1;
      var initial := Read(1);
      if initial.Err? { return Err(initial.error); }
      var major, addl := initial.value[0] / 32, initial.value[0] % 32;
      var val := Val(addl);
      if val.Err? { return Err(val.error); }
      r := Body(major, val.value);
    }

    method Body(major: nat, n: nat) returns (r: Result<Value>)
      requires pos <= |data|
      modifies this
      ensures old(pos) <= pos <= |data| && Agrees(r, pos, BodyAt(dec, data, old(pos), major, n))
      ensures starts == old(starts) + BodyAt(dec, data, old(pos), major, n).starts
      decreases |data| - pos, 3
    {
      if major == 0 { return Ok(Int(n)); }
      if major == 1 { return Ok(Int(-1 - n)); }
      if major == 2 || major == 3 {
        var s := Read(n);
        if s.Err? { return Err(s.error); }
        if major == 2 { return Ok(Bytes(s.value)); }
        var text := dec(s.value);
        return if text.None? then Err(BadText) else Ok(Text(text.value));
      }
      if major == 4 {
        var items := Items(n);
        return if items.Err? then Err(items.error) else Ok(List(items.value));
      }
      if major == 5 {
        var entries := Entries(n);
        return if entries.Err? then Err(entries.error) else Ok(Dict(entries.value));
      }
      if major == 7 {
        if n == 20 { return Ok(Bool(false)); }
        if n == 21 { return Ok(Bool(true)); }
        if n == 22 { return Ok(Null); }
      }
      return Err(Unsupported);
    }

    method Items(n: nat) returns (r: Result<seq<Value>>)
      requires pos <= |data|
      modifies this
      ensures old(pos) <= pos <= |data| && Agrees(r, pos, ItemsAt(dec, data, old(pos), n, []))
      ensures starts == old(starts) + ItemsAt(dec, data, old(pos), n, []).starts
      decreases |data| - pos, 1
    {
      var done: seq<Value>, i := [], 0;
      while i < n
        invariant 0 <= i <= n && old(pos) <= pos <= |data| && starts >= old(starts)
        invariant ItemsAt(dec, data, old(pos), n, []) == ItemsAt(dec, data, pos, n - i, done).More(starts - old(starts))
      {
        var item := Item();
        if item.Err? { return Err(item.error); }
        done, i := done + [item.value], i + 1;
      }
      r := Ok(done);
    }

    method NextEntry() returns (r: Result<Entry>)
      requires pos <= |data|
      modifies this
      ensures old(pos) <= pos <= |data| && Agrees(r, pos, EntryAt(dec, data, old(pos)))
      ensures starts == old(starts) + EntryAt(dec, data, old(pos)).starts
      decreases |data| - pos, 1
    {
      var key := Item();
      if key.Err? { return Err(key.error); }
      var value := Item();
      if value.Err? { return Err(value.error); }
      return if Hashable(key.value) then Ok(Entry(key.value, value.value)) else Err(Unhashable);
    }

    method Entries(n: nat) returns (r: Result<seq<Entry>>)
      requires pos <= |data|
      modifies this
      ensures old(pos) <= pos <= |data| && Agrees(r, pos, EntriesAt(dec, data, old(pos), n, []))
      ensures starts == old(starts) + EntriesAt(dec, data, old(pos), n, []).starts
      decreases |data| - pos, 2
    {
      var done: seq<Entry>, i := [], 0;
      while i < n
        invariant 0 <= i <= n && old(pos) <= pos <= |data| && starts >= old(starts)
        invariant EntriesAt(dec, data, old(pos), n, []) ==
                  EntriesAt(dec, data, pos, n - i, done).More(starts - old(starts))
      {
        var entry := NextEntry();
        if entry.Err? { return Err(entry.error); }
        done, i := Put(done, entry.value.key, entry.value.value), i + 1;
      }
      r := Ok(done);
    }
  }

  /** Reads one item that takes up all the bytes. */
  method LoadBytes(dec: Decoder, data: seq<Byte>) returns (r: Result<Value>)
    ensures Agrees(r, |data|, Loads(dec, data))
  {
    var reader := new Reader(dec, data);
    r := reader.Item();
    if r.Ok? && reader.pos != |data| { r := Err(Trailing); }
  }
}
