/**
 The encodings that the reader accepts, with their meaning, and how they relate to the definite-length encodings
 of section 3 of RFC 8949: the reader takes those, and besides them flags written in a wider form.
 */
module CborEncoding {
  import opened Prelude
  import opened Cbor

  /** How the argument is written: in the initial byte, or in the 1, 2, 4 or 8 bytes after it. */
  datatype Width = W0 | W1 | W2 | W4 | W8
  {
    function Length(): nat { match this case W0 => 0 case W1 => 1 case W2 => 2 case W4 => 4 case W8 => 8 }

    function Code(): nat { match this case W0 => 0 case W1 => 24 case W2 => 25 case W4 => 26 case W8 => 27 }

    predicate Holds(n: nat) { if W0? then n < 24 else n < Pow256(Length()) }
  }

  /**
   One encoding of one value: the shape, with the width of every argument. A map lists its keys and values alternately.
   */
  datatype Tree =
    | Number(negative: bool, w: Width, n: nat)
    | Chars(text: bool, w: Width, s: seq<Byte>)
    | Array(w: Width, items: seq<Tree>)
    | Record(w: Width, flat: seq<Tree>)
    | Flag(w: Width, n: nat)

  function Initial(major: nat, addl: nat): Byte { (major * 32 + addl) % 256 }

  function Head(major: nat, w: Width, n: nat): (s: seq<Byte>)
    ensures |s| == 1 + w.Length()
  {
    if w.W0? then [Initial(major, n)] else [Initial(major, w.Code())] + ToBigEndian(n, w.Length())
  }

  function Encode(t: Tree): (s: seq<Byte>)
    ensures s != []
  {
    match t
    case Number(negative, w, n) => Head(if negative then 1 else 0, w, n)
    case Chars(text, w, s) => Head(if text then 3 else 2, w, |s|) + s
    case Array(w, items) => Head(4, w, |items|) + EncodeAll(items)
    case Record(w, flat) => Head(5, w, |flat| / 2) + EncodeAll(flat)
    case Flag(w, n) => Head(7, w, n)
  }

  function EncodeAll(items: seq<Tree>): seq<Byte> {
    if items == [] then [] else Encode(items[0]) + EncodeAll(items[1..])
  }

  /** Arguments fit their widths, texts decode, keys are hashable and flags are false, true or null. */
  predicate Sound(dec: Decoder, t: Tree) {
    match t
    case Number(_, w, n) => w.Holds(n)
    case Chars(text, w, s) => w.Holds(|s|) && (text ==> dec(s).Some?)
    case Array(w, items) => w.Holds(|items|) && SoundAll(dec, items)
    case Record(w, flat) => |flat| % 2 == 0 && w.Holds(|flat| / 2) && SoundAll(dec, flat) && ScalarKeys(flat)
    case Flag(w, n) => w.Holds(n) && 20 <= n <= 22
  }

  predicate SoundAll(dec: Decoder, items: seq<Tree>) {
    items == [] || (Sound(dec, items[0]) && SoundAll(dec, items[1..]))
  }

  predicate IsScalar(t: Tree) { !t.Array? && !t.Record? }

  predicate ScalarKeys(flat: seq<Tree>) { |flat| < 2 || (IsScalar(flat[0]) && ScalarKeys(flat[2..])) }

  /** The value a sound encoding stands for. */
  function Meaning(dec: Decoder, t: Tree): (v: Value)
    ensures Hashable(v) <==> IsScalar(t)
  {
    match t
    case Number(negative, _, n) => Int(if negative then -1 - n else n)
    case Chars(text, _, s) => if !text then Bytes(s) else if dec(s).Some? then Text(dec(s).value) else Null
    case Array(_, items) => List(Meanings(dec, items))
    case Record(_, flat) => Dict(PutAll([], Entries(Meanings(dec, flat))))
    case Flag(_, n) => if n == 22 then Null else Bool(n == 21)
  }

  function Meanings(dec: Decoder, items: seq<Tree>): seq<Value> {
    if items == [] then [] else [Meaning(dec, items[0])] + Meanings(dec, items[1..])
  }

  function Entries(flat: seq<Value>): seq<Entry> {
    if |flat| < 2 then [] else [Entry(flat[0], flat[1])] + Entries(flat[2..])
  }

  /** Entries stored one after the other, so that a repeated key keeps its last value. */
  function PutAll(d: seq<Entry>, entries: seq<Entry>): seq<Entry>
    decreases entries
  {
    if entries == [] then d else PutAll(Put(d, entries[0].key, entries[0].value), entries[1..])
  }

  // ----- positions -----

  predicate At(data: seq<Byte>, pos: nat, s: seq<Byte>) { pos + |s| <= |data| && data[pos..pos + |s|] == s }

  lemma AtSplit(data: seq<Byte>, pos: nat, a: seq<Byte>, b: seq<Byte>)
    ensures At(data, pos, a + b) <==> At(data, pos, a) && At(data, pos + |a|, b)
  {
    if pos + |a| + |b| <= |data| {
      assert data[pos..pos + |a| + |b|] == data[pos..pos + |a|] + data[pos + |a|..pos + |a| + |b|];
      if At(data, pos, a + b) {
        assert data[pos..pos + |a|] == (a + b)[..|a|] == a;
        assert data[pos + |a|..pos + |a| + |b|] == (a + b)[|a|..] == b;
      }
    }
  }

  lemma InitialReads(major: nat, addl: nat)
    requires major < 8 && addl < 32
    ensures Initial(major, addl) / 32 == major && Initial(major, addl) % 32 == addl
  {
  }

  lemma InitialIsUnique(b: Byte)
    ensures b / 32 < 8 && Initial(b / 32, b % 32) == b
  {
  }

  lemma AtFirst(data: seq<Byte>, pos: nat, s: seq<Byte>)
    requires s != [] && At(data, pos, s)
    ensures pos < |data| && data[pos] == s[0]
  {
    assert data[pos] == data[pos..pos + |s|][0];
  }

  lemma WideArgumentReads(data: seq<Byte>, pos: nat, w: Width, n: nat)
    requires !w.W0? && w.Holds(n) && At(data, pos, ToBigEndian(n, w.Length()))
    ensures ArgAt(data, pos, w.Code()) == Got(n, pos + w.Length(), 0)
  {
    BigEndianRoundTrip(n, w.Length());
  }

  /** A written head is read back. */
  lemma HeadReads(data: seq<Byte>, pos: nat, major: nat, w: Width, n: nat)
    requires major < 8 && w.Holds(n) && At(data, pos, Head(major, w, n))
    ensures pos < |data| && data[pos] / 32 == major
    ensures ArgAt(data, pos + 1, data[pos] % 32) == Got(n, pos + |Head(major, w, n)|, 0)
  {
    var addl := if w.W0? then n else w.Code();
    assert addl < 32;
    AtFirst(data, pos, Head(major, w, n));
    assert data[pos] == Initial(major, addl);
    InitialReads(major, addl);
    if !w.W0? {
      AtSplit(data, pos, [Initial(major, addl)], ToBigEndian(n, w.Length()));
      WideArgumentReads(data, pos + 1, w, n);
    }
  }

  function WidthOf(addl: nat): Width {
    if addl < 24 then W0 else if addl == 24 then W1 else if addl == 25 then W2 else if addl == 26 then W4 else W8
  }

  /** A head that is read was written in one of the widths. */
  lemma ReadHead(data: seq<Byte>, pos: nat, w: Width, arg: Parse<nat>)
    requires pos < |data| && w == WidthOf(data[pos] % 32) && arg == ArgAt(data, pos + 1, data[pos] % 32) && arg.Got?
    ensures w.Holds(arg.value) && At(data, pos, Head(data[pos] / 32, w, arg.value))
    ensures arg.next == pos + |Head(data[pos] / 32, w, arg.value)|
  {
    InitialIsUnique(data[pos]);
    assert data[pos..pos + 1] == [data[pos]];
    if !w.W0? { ReadWideHead(data, pos, w, arg); }
  }

  lemma ReadWideHead(data: seq<Byte>, pos: nat, w: Width, arg: Parse<nat>)
    requires pos < |data| && !w.W0? && pos + 1 + w.Length() <= |data|
    requires Initial(data[pos] / 32, w.Code()) == data[pos]
    requires arg == Got(FromBigEndian(data[pos + 1..pos + 1 + w.Length()]), pos + 1 + w.Length(), 0)
    ensures w.Holds(arg.value) && At(data, pos, Head(data[pos] / 32, w, arg.value))
  {
    var tail := data[pos + 1..pos + 1 + w.Length()];
    BigEndianIsUnique(tail);
    AtSplit(data, pos, [Initial(data[pos] / 32, w.Code())], tail);
    assert data[pos..pos + 1] == [data[pos]];
  }

  lemma HeadDecides(dec: Decoder, data: seq<Byte>, pos: nat, major: nat, w: Width, n: nat)
    requires major < 8 && w.Holds(n) && At(data, pos, Head(major, w, n))
    ensures ItemAt(dec, data, pos) == BodyAt(dec, data, pos + |Head(major, w, n)|, major, n).More(1)
  {
    HeadReads(data, pos, major, w, n);
  }

  // ----- the parts of an encoding -----

  /** r is a successful parse of v that ends at `next`. */
  predicate Yields<T(==)>(r: Parse<T>, v: T, next: nat) { r.Got? && r.value == v && r.next == next }

  function Major(t: Tree): nat {
    match t
    case Number(negative, _, _) => if negative then 1 else 0
    case Chars(text, _, _) => if text then 3 else 2
    case Array(_, _) => 4
    case Record(_, _) => 5
    case Flag(_, _) => 7
  }

  function Argument(t: Tree): nat {
    match t
    case Number(_, _, n) => n
    case Chars(_, _, s) => |s|
    case Array(_, items) => |items|
    case Record(_, flat) => |flat| / 2
    case Flag(_, n) => n
  }

  function Body(t: Tree): seq<Byte> {
    match t
    case Number(_, _, _) => []
    case Chars(_, _, s) => s
    case Array(_, items) => EncodeAll(items)
    case Record(_, flat) => EncodeAll(flat)
    case Flag(_, _) => []
  }

  lemma EncodeIsHeadAndBody(dec: Decoder, t: Tree)
    ensures Encode(t) == Head(Major(t), t.w, Argument(t)) + Body(t)
    ensures Sound(dec, t) ==> t.w.Holds(Argument(t))
  {
  }

  // ----- loops over pieces that can be read -----

  /** Some bytes and what they are read as: an item, or an entry of a map. */
  datatype Piece<T> = Piece(bytes: seq<Byte>, value: T)

  function Concat<T>(pieces: seq<Piece<T>>): seq<Byte> {
    if pieces == [] then [] else pieces[0].bytes + Concat(pieces[1..])
  }

  function Values<T>(pieces: seq<Piece<T>>): seq<T> {
    if pieces == [] then [] else [pieces[0].value] + Values(pieces[1..])
  }

  lemma PieceInFront<T>(p: Piece<T>, rest: seq<Piece<T>>)
    ensures Concat([p] + rest) == p.bytes + Concat(rest) && Values([p] + rest) == [p.value] + Values(rest)
  {
    assert ([p] + rest)[1..] == rest;
  }

  /** Wherever these bytes stand, an item read takes them for the value. */
  ghost predicate Readable(dec: Decoder, p: Piece<Value>) {
    forall data: seq<Byte>, pos: nat ::
      At(data, pos, p.bytes) ==> Yields(ItemAt(dec, data, pos), p.value, pos + |p.bytes|)
  }

  /** Wherever these bytes stand, the reader takes them for the entry. */
  ghost predicate EntryReadable(dec: Decoder, p: Piece<Entry>) {
    forall data: seq<Byte>, pos: nat ::
      At(data, pos, p.bytes) ==> Yields(EntryAt(dec, data, pos), p.value, pos + |p.bytes|)
  }

  ghost predicate AllReadable(dec: Decoder, pieces: seq<Piece<Value>>) {
    forall i :: 0 <= i < |pieces| ==> Readable(dec, pieces[i])
  }

  ghost predicate EntriesReadable(dec: Decoder, pieces: seq<Piece<Entry>>) {
    forall i :: 0 <= i < |pieces| ==> EntryReadable(dec, pieces[i])
  }

  /** One turn of the loop that reads an array. */
  lemma ItemStep(dec: Decoder, data: seq<Byte>, pos: nat, n: nat, done: seq<Value>, first: Value, middle: nat,
                 rest: seq<Value>, end: nat)
    requires pos <= |data| && middle <= |data| && n > 0 && Yields(ItemAt(dec, data, pos), first, middle)
    requires Yields(ItemsAt(dec, data, middle, n - 1, done + [first]), done + [first] + rest, end)
    ensures Yields(ItemsAt(dec, data, pos, n, done), done + ([first] + rest), end)
  {
    assert done + [first] + rest == done + ([first] + rest);
  }

  /** One turn of the loop that reads a map. */
  lemma EntryStep(dec: Decoder, data: seq<Byte>, pos: nat, n: nat, done: seq<Entry>, entry: Entry, next: nat,
                  all: seq<Entry>, end: nat)
    requires pos <= |data| && next <= |data| && n > 0 && Yields(EntryAt(dec, data, pos), entry, next)
    requires Yields(EntriesAt(dec, data, next, n - 1, Put(done, entry.key, entry.value)), all, end)
    ensures Yields(EntriesAt(dec, data, pos, n, done), all, end)
  {
  }

  lemma {:induction false} ItemLoopReads(dec: Decoder, data: seq<Byte>, pos: nat, pieces: seq<Piece<Value>>,
                                         done: seq<Value>)
    requires AllReadable(dec, pieces) && pos <= |data| && At(data, pos, Concat(pieces))
    ensures Yields(ItemsAt(dec, data, pos, |pieces|, done), done + Values(pieces), pos + |Concat(pieces)|)
    decreases |pieces|
  {
    if pieces == [] {
      assert done + Values(pieces) == done;
    } else {
      var first, rest := pieces[0], pieces[1..];
      AtSplit(data, pos, first.bytes, Concat(rest));
      assert Readable(dec, first);
      var middle := pos + |first.bytes|;
      ItemLoopReads(dec, data, middle, rest, done + [first.value]);
      ItemStep(dec, data, pos, |pieces|, done, first.value, middle, Values(rest), middle + |Concat(rest)|);
    }
  }

  lemma PutAllFirst(d: seq<Entry>, first: Entry, rest: seq<Entry>)
    ensures PutAll(d, [first] + rest) == PutAll(Put(d, first.key, first.value), rest)
  {
    assert ([first] + rest)[1..] == rest;
  }

  lemma {:induction false} EntryLoopReads(dec: Decoder, data: seq<Byte>, pos: nat, pieces: seq<Piece<Entry>>,
                                          done: seq<Entry>)
    requires EntriesReadable(dec, pieces) && pos <= |data| && At(data, pos, Concat(pieces))
    ensures Yields(EntriesAt(dec, data, pos, |pieces|, done), PutAll(done, Values(pieces)), pos + |Concat(pieces)|)
    decreases |pieces|
  {
    if pieces != [] {
      var first, rest := pieces[0], pieces[1..];
      AtSplit(data, pos, first.bytes, Concat(rest));
      assert EntryReadable(dec, first);
      var next := pos + |first.bytes|;
      EntryLoopReads(dec, data, next, rest, Put(done, first.value.key, first.value.value));
      FirstPiece(pieces);
      PutAllFirst(done, first.value, Values(rest));
      EntryStep(dec, data, pos, |pieces|, done, first.value, next, PutAll(done, Values(pieces)), next + |Concat(rest)|);
    }
  }

  /** A readable key that is hashable and a readable value make a readable entry. */
  lemma PairIsReadable(dec: Decoder, key: Piece<Value>, value: Piece<Value>)
    requires Readable(dec, key) && Readable(dec, value) && Hashable(key.value)
    ensures EntryReadable(dec, Piece(key.bytes + value.bytes, Entry(key.value, value.value)))
  {
    forall data: seq<Byte>, pos: nat | At(data, pos, key.bytes + value.bytes)
      ensures Yields(EntryAt(dec, data, pos), Entry(key.value, value.value), pos + |key.bytes + value.bytes|)
    {
      AtSplit(data, pos, key.bytes, value.bytes);
      var middle := pos + |key.bytes|;
      assert At(data, pos, key.bytes) && At(data, middle, value.bytes);
      EntryReads(dec, data, pos, key.value, middle, value.value, middle + |value.bytes|);
    }
  }

  lemma EntryReads(dec: Decoder, data: seq<Byte>, pos: nat, key: Value, middle: nat, value: Value, next: nat)
    requires pos <= |data| && middle <= |data| && Hashable(key)
    requires Yields(ItemAt(dec, data, pos), key, middle) && Yields(ItemAt(dec, data, middle), value, next)
    ensures Yields(EntryAt(dec, data, pos), Entry(key, value), next)
  {
  }

  // ----- encodings are read back -----

  function PieceOf(dec: Decoder, t: Tree): Piece<Value> { Piece(Encode(t), Meaning(dec, t)) }

  function PiecesOf(dec: Decoder, items: seq<Tree>): seq<Piece<Value>> {
    if items == [] then [] else [PieceOf(dec, items[0])] + PiecesOf(dec, items[1..])
  }

  function EntryPiece(key: Piece<Value>, value: Piece<Value>): Piece<Entry> {
    Piece(key.bytes + value.bytes, Entry(key.value, value.value))
  }

  /** The pieces of an alternating list, two by two. */
  function Paired(pieces: seq<Piece<Value>>): seq<Piece<Entry>> {
    if |pieces| < 2 then [] else [EntryPiece(pieces[0], pieces[1])] + Paired(pieces[2..])
  }

  lemma TwoPieces(pieces: seq<Piece<Value>>)
    requires |pieces| >= 2
    ensures Concat(pieces) == pieces[0].bytes + pieces[1].bytes + Concat(pieces[2..])
    ensures Values(pieces) == [pieces[0].value] + ([pieces[1].value] + Values(pieces[2..]))
  {
    FirstPiece(pieces);
    FirstPiece(pieces[1..]);
    TailOfTail(pieces);
    Regroup(pieces[0].bytes, pieces[1].bytes, Concat(pieces[2..]));
  }

  lemma FirstPiece<T>(pieces: seq<Piece<T>>)
    requires pieces != []
    ensures Concat(pieces) == pieces[0].bytes + Concat(pieces[1..])
    ensures Values(pieces) == [pieces[0].value] + Values(pieces[1..])
  {
  }

  lemma TailOfTail<T>(s: seq<T>)
    requires |s| >= 2
    ensures s[1..] != [] && s[1..][0] == s[1] && s[1..][1..] == s[2..]
  {
  }

  lemma Regroup(a: seq<Byte>, b: seq<Byte>, c: seq<Byte>)
    ensures a + (b + c) == a + b + c
  {
  }

  lemma EntriesOfTwo(key: Value, value: Value, rest: seq<Value>)
    ensures Entries([key] + ([value] + rest)) == [Entry(key, value)] + Entries(rest)
  {
    assert ([key] + ([value] + rest))[2..] == rest;
  }

  /** Pairing changes neither the bytes nor the values. */
  lemma {:induction false} PairedFit(pieces: seq<Piece<Value>>)
    requires |pieces| % 2 == 0
    ensures |Paired(pieces)| == |pieces| / 2 && Concat(Paired(pieces)) == Concat(pieces)
    ensures Values(Paired(pieces)) == Entries(Values(pieces))
    decreases |pieces|
  {
    if |pieces| >= 2 {
      PairedFit(pieces[2..]);
      TwoPieces(pieces);
      PieceInFront(EntryPiece(pieces[0], pieces[1]), Paired(pieces[2..]));
      EntriesOfTwo(pieces[0].value, pieces[1].value, Values(pieces[2..]));
    }
  }

  predicate HashableKeys(pieces: seq<Piece<Value>>) {
    |pieces| < 2 || (Hashable(pieces[0].value) && HashableKeys(pieces[2..]))
  }

  lemma {:induction false} PairedReadable(dec: Decoder, pieces: seq<Piece<Value>>)
    requires AllReadable(dec, pieces) && HashableKeys(pieces)
    ensures EntriesReadable(dec, Paired(pieces))
    decreases |pieces|
  {
    if |pieces| >= 2 {
      PairedReadable(dec, pieces[2..]);
      assert Readable(dec, pieces[0]) && Readable(dec, pieces[1]);
      PairIsReadable(dec, pieces[0], pieces[1]);
      EntryInFront(dec, EntryPiece(pieces[0], pieces[1]), Paired(pieces[2..]));
    }
  }

  lemma EntryInFront(dec: Decoder, p: Piece<Entry>, rest: seq<Piece<Entry>>)
    requires EntryReadable(dec, p) && EntriesReadable(dec, rest)
    ensures EntriesReadable(dec, [p] + rest)
  {
  }

  lemma EncodeFirst(items: seq<Tree>)
    requires items != []
    ensures EncodeAll(items) == Encode(items[0]) + EncodeAll(items[1..])
  {
  }

  lemma MeaningOfFirst(dec: Decoder, items: seq<Tree>)
    requires items != []
    ensures Meanings(dec, items) == [Meaning(dec, items[0])] + Meanings(dec, items[1..])
  {
  }

  lemma SoundOfFirst(dec: Decoder, items: seq<Tree>)
    requires items != []
    ensures SoundAll(dec, items) <==> Sound(dec, items[0]) && SoundAll(dec, items[1..])
  {
  }

  /** The pieces of some trees make up their encoding and their meanings. */
  lemma {:induction false} PiecesFit(dec: Decoder, items: seq<Tree>)
    ensures |PiecesOf(dec, items)| == |items| && Concat(PiecesOf(dec, items)) == EncodeAll(items)
    ensures Values(PiecesOf(dec, items)) == Meanings(dec, items)
  {
    if items != [] {
      PiecesFit(dec, items[1..]);
      EncodeFirst(items);
      MeaningOfFirst(dec, items);
      PieceInFront(PieceOf(dec, items[0]), PiecesOf(dec, items[1..]));
    }
  }

  lemma {:induction false} PieceAt(dec: Decoder, items: seq<Tree>, i: nat)
    requires i < |items|
    ensures |PiecesOf(dec, items)| == |items| && PiecesOf(dec, items)[i] == PieceOf(dec, items[i])
  {
    if i == 0 {
      PiecesFit(dec, items);
    } else {
      PieceAt(dec, items[1..], i - 1);
    }
  }

  lemma {:induction false} ScalarKeyAt(flat: seq<Tree>, i: nat)
    requires ScalarKeys(flat) && i % 2 == 0 && i + 1 < |flat|
    ensures IsScalar(flat[i])
  {
    if i > 0 { ScalarKeyAt(flat[2..], i - 2); }
  }

  lemma {:induction false} KeysHashable(pieces: seq<Piece<Value>>)
    requires forall i :: 0 <= i < |pieces| - 1 && i % 2 == 0 ==> Hashable(pieces[i].value)
    ensures HashableKeys(pieces)
    decreases |pieces|
  {
    if |pieces| >= 2 {
      forall i | 0 <= i < |pieces[2..]| - 1 && i % 2 == 0 ensures Hashable(pieces[2..][i].value) {
        assert pieces[2..][i] == pieces[i + 2];
      }
      KeysHashable(pieces[2..]);
    }
  }

  lemma KeysOfPieces(dec: Decoder, flat: seq<Tree>)
    requires ScalarKeys(flat)
    ensures HashableKeys(PiecesOf(dec, flat))
  {
    PiecesFit(dec, flat);
    forall i | 0 <= i < |flat| - 1 && i % 2 == 0 ensures Hashable(PiecesOf(dec, flat)[i].value) {
      ScalarKeyAt(flat, i);
      PieceAt(dec, flat, i);
    }
    KeysHashable(PiecesOf(dec, flat));
  }

  lemma HeadThenBody(dec: Decoder, data: seq<Byte>, pos: nat, major: nat, w: Width, n: nat, v: Value, end: nat)
    requires major < 8 && w.Holds(n) && At(data, pos, Head(major, w, n))
    requires Yields(BodyAt(dec, data, pos + |Head(major, w, n)|, major, n), v, end)
    ensures Yields(ItemAt(dec, data, pos), v, end)
  {
    HeadDecides(dec, data, pos, major, w, n);
  }

  lemma ArrayBody(dec: Decoder, data: seq<Byte>, pos: nat, n: nat, all: seq<Value>, end: nat)
    requires pos <= |data| && Yields(ItemsAt(dec, data, pos, n, []), all, end)
    ensures Yields(BodyAt(dec, data, pos, 4, n), List(all), end)
  {
  }

  lemma RecordBody(dec: Decoder, data: seq<Byte>, pos: nat, n: nat, all: seq<Entry>, end: nat)
    requires pos <= |data| && Yields(EntriesAt(dec, data, pos, n, []), all, end)
    ensures Yields(BodyAt(dec, data, pos, 5, n), Dict(all), end)
  {
  }

  lemma ScalarBodyReads(dec: Decoder, data: seq<Byte>, pos: nat, t: Tree)
    requires Sound(dec, t) && IsScalar(t) && pos <= |data| && At(data, pos, Body(t))
    ensures Yields(BodyAt(dec, data, pos, Major(t), Argument(t)), Meaning(dec, t), pos + |Body(t)|)
  {
  }

  lemma {:induction false} TreeIsReadable(dec: Decoder, t: Tree)
    requires Sound(dec, t)
    ensures Readable(dec, PieceOf(dec, t))
    decreases t, 2
  {
    forall data: seq<Byte>, pos: nat | At(data, pos, Encode(t))
      ensures Yields(ItemAt(dec, data, pos), Meaning(dec, t), pos + |Encode(t)|)
    {
      ItemReads(dec, data, pos, t);
    }
  }

  lemma {:induction false} ItemReads(dec: Decoder, data: seq<Byte>, pos: nat, t: Tree)
    requires Sound(dec, t) && At(data, pos, Encode(t))
    ensures Yields(ItemAt(dec, data, pos), Meaning(dec, t), pos + |Encode(t)|)
    decreases t, 1
  {
    var head := Head(Major(t), t.w, Argument(t));
    EncodeIsHeadAndBody(dec, t);
    AtSplit(data, pos, head, Body(t));
    BodyReads(dec, data, pos + |head|, t);
    HeadThenBody(dec, data, pos, Major(t), t.w, Argument(t), Meaning(dec, t), pos + |Encode(t)|);
  }

  lemma {:induction false} BodyReads(dec: Decoder, data: seq<Byte>, pos: nat, t: Tree)
    requires Sound(dec, t) && pos <= |data| && At(data, pos, Body(t))
    ensures Yields(BodyAt(dec, data, pos, Major(t), Argument(t)), Meaning(dec, t), pos + |Body(t)|)
    decreases t, 0
  {
    if t.Array? {
      ArrayReads(dec, data, pos, t.items);
    } else if t.Record? {
      RecordReads(dec, data, pos, t.flat);
    } else {
      ScalarBodyReads(dec, data, pos, t);
    }
  }

  lemma {:induction false} PiecesAreReadable(dec: Decoder, items: seq<Tree>)
    requires SoundAll(dec, items)
    ensures AllReadable(dec, PiecesOf(dec, items))
    decreases items, 0
  {
    if items != [] {
      SoundOfFirst(dec, items);
      TreeIsReadable(dec, items[0]);
      PiecesAreReadable(dec, items[1..]);
      ReadableInFront(dec, PieceOf(dec, items[0]), PiecesOf(dec, items[1..]));
    }
  }

  lemma ReadableInFront(dec: Decoder, p: Piece<Value>, rest: seq<Piece<Value>>)
    requires Readable(dec, p) && AllReadable(dec, rest)
    ensures AllReadable(dec, [p] + rest)
  {
  }

  lemma {:induction false} ArrayReads(dec: Decoder, data: seq<Byte>, pos: nat, items: seq<Tree>)
    requires SoundAll(dec, items) && pos <= |data| && At(data, pos, EncodeAll(items))
    ensures Yields(BodyAt(dec, data, pos, 4, |items|), List(Meanings(dec, items)), pos + |EncodeAll(items)|)
    decreases items, 1
  {
    PiecesAreReadable(dec, items);
    PiecesFit(dec, items);
    ItemLoopReads(dec, data, pos, PiecesOf(dec, items), []);
    assert [] + Meanings(dec, items) == Meanings(dec, items);
    ArrayBody(dec, data, pos, |items|, Meanings(dec, items), pos + |EncodeAll(items)|);
  }

  lemma {:induction false} RecordReads(dec: Decoder, data: seq<Byte>, pos: nat, flat: seq<Tree>)
    requires |flat| % 2 == 0 && SoundAll(dec, flat) && ScalarKeys(flat) && pos <= |data|
    requires At(data, pos, EncodeAll(flat))
    ensures Yields(BodyAt(dec, data, pos, 5, |flat| / 2), Dict(PutAll([], Entries(Meanings(dec, flat)))),
                   pos + |EncodeAll(flat)|)
    decreases flat, 1
  {
    PiecesAreReadable(dec, flat);
    PiecesFit(dec, flat);
    KeysOfPieces(dec, flat);
    PairedFit(PiecesOf(dec, flat));
    PairedReadable(dec, PiecesOf(dec, flat));
    EntryLoopReads(dec, data, pos, Paired(PiecesOf(dec, flat)), []);
    RecordBody(dec, data, pos, |flat| / 2, PutAll([], Entries(Meanings(dec, flat))), pos + |EncodeAll(flat)|);
  }

  /** Every encoding the reader knows, whatever its argument widths, loads as the value it stands for. */
  lemma EncodingLoads(dec: Decoder, t: Tree)
    requires Sound(dec, t)
    ensures var r := Loads(dec, Encode(t)); r.Got? && r.value == Meaning(dec, t)
  {
    var data := Encode(t);
    assert data[0..0 + |data|] == data;
    ItemReads(dec, data, 0, t);
  }

  // ----- what is read was an encoding -----

  /** A sound tree is written at `pos`. */
  predicate Written(dec: Decoder, data: seq<Byte>, pos: nat, t: Tree) { Sound(dec, t) && At(data, pos, Encode(t)) }

  /** So many sound trees are written one after the other at `pos`. */
  predicate AllWritten(dec: Decoder, data: seq<Byte>, pos: nat, n: nat, items: seq<Tree>) {
    |items| == n && SoundAll(dec, items) && At(data, pos, EncodeAll(items))
  }

  lemma {:induction false} ReadItem(dec: Decoder, data: seq<Byte>, pos: nat) returns (t: Tree)
    requires pos <= |data| && ItemAt(dec, data, pos).Got?
    ensures Written(dec, data, pos, t)
    decreases |data| - pos, 0
  {
    var major, w, arg := data[pos] / 32, WidthOf(data[pos] % 32), ArgAt(data, pos + 1, data[pos] % 32);
    ReadHead(data, pos, w, arg);
    InitialIsUnique(data[pos]);
    t := ReadBody(dec, data, arg.next, major, w, arg.value);
    EncodeIsHeadAndBody(dec, t);
    AtSplit(data, pos, Head(major, w, arg.value), Body(t));
  }

  /** t is what an item with this head and its body at `pos` was written from. */
  predicate BodyWritten(dec: Decoder, data: seq<Byte>, pos: nat, major: nat, w: Width, n: nat, t: Tree) {
    Sound(dec, t) && Major(t) == major && t.w == w && Argument(t) == n && At(data, pos, Body(t))
  }

  lemma {:induction false} ReadBody(dec: Decoder, data: seq<Byte>, pos: nat, major: nat, w: Width, n: nat)
    returns (t: Tree)
    requires pos <= |data| && w.Holds(n) && BodyAt(dec, data, pos, major, n).Got?
    ensures BodyWritten(dec, data, pos, major, w, n, t)
    decreases |data| - pos, 6
  {
    if major == 4 {
      var items := ReadItems(dec, data, pos, n, []);
      t := Array(w, items);
    } else if major == 5 {
      var flat := ReadPairs(dec, data, pos, n, []);
      t := Record(w, flat);
      RecordIsSound(dec, w, flat, n);
    } else {
      t := ReadScalar(dec, data, pos, major, w, n);
    }
  }

  lemma RecordIsSound(dec: Decoder, w: Width, flat: seq<Tree>, n: nat)
    requires w.Holds(n) && |flat| == 2 * n && SoundAll(dec, flat) && ScalarKeys(flat)
    ensures Sound(dec, Record(w, flat)) && Argument(Record(w, flat)) == n
  {
    assert |flat| / 2 == n && |flat| % 2 == 0;
  }

  lemma ReadScalar(dec: Decoder, data: seq<Byte>, pos: nat, major: nat, w: Width, n: nat) returns (t: Tree)
    requires pos <= |data| && w.Holds(n) && major != 4 && major != 5 && BodyAt(dec, data, pos, major, n).Got?
    ensures BodyWritten(dec, data, pos, major, w, n, t)
  {
    if major <= 1 {
      t := Number(major == 1, w, n);
    } else if major <= 3 {
      t := Chars(major == 3, w, data[pos..pos + n]);
    } else {
      t := Flag(w, n);
    }
  }

  lemma ItemsGoOn(dec: Decoder, data: seq<Byte>, pos: nat, n: nat, done: seq<Value>)
    requires pos <= |data| && n > 0 && ItemsAt(dec, data, pos, n, done).Got?
    ensures var r := ItemAt(dec, data, pos); r.Got? && ItemsAt(dec, data, r.next, n - 1, done + [r.value]).Got?
  {
  }

  /** The tree at `pos`, with the place where its item ends. */
  lemma {:induction false} ReadFirst(dec: Decoder, data: seq<Byte>, pos: nat) returns (t: Tree)
    requires pos <= |data| && ItemAt(dec, data, pos).Got?
    ensures Written(dec, data, pos, t) && Yields(ItemAt(dec, data, pos), Meaning(dec, t), pos + |Encode(t)|)
    decreases |data| - pos, 1
  {
    t := ReadItem(dec, data, pos);
    ItemReads(dec, data, pos, t);
  }

  lemma {:induction false} ReadItems(dec: Decoder, data: seq<Byte>, pos: nat, n: nat, done: seq<Value>)
    returns (items: seq<Tree>)
    requires pos <= |data| && ItemsAt(dec, data, pos, n, done).Got?
    ensures AllWritten(dec, data, pos, n, items)
    decreases |data| - pos, 5
  {
    items := [];
    if n > 0 {
      ItemsGoOn(dec, data, pos, n, done);
      var r := ItemAt(dec, data, pos);
      items := ReadMoreItems(dec, data, pos, n, done + [r.value], r.next);
    }
  }

  lemma {:induction false} ReadMoreItems(dec: Decoder, data: seq<Byte>, pos: nat, n: nat, done: seq<Value>, next: nat)
    returns (items: seq<Tree>)
    requires pos <= |data| && n > 0 && ItemAt(dec, data, pos).Got?
             && pos < next == ItemAt(dec, data, pos).next <= |data|
    requires ItemsAt(dec, data, next, n - 1, done).Got?
    ensures AllWritten(dec, data, pos, n, items)
    decreases |data| - pos, 4
  {
    var first := ReadFirst(dec, data, pos);
    var rest := ReadItems(dec, data, next, n - 1, done);
    WrittenInFront(dec, data, pos, first, n - 1, rest);
    items := [first] + rest;
  }

  lemma WrittenInFront(dec: Decoder, data: seq<Byte>, pos: nat, first: Tree, n: nat, rest: seq<Tree>)
    requires Written(dec, data, pos, first) && AllWritten(dec, data, pos + |Encode(first)|, n, rest)
    ensures AllWritten(dec, data, pos, n + 1, [first] + rest)
  {
    var items := [first] + rest;
    assert items[0] == first && items[1..] == rest;
    EncodeFirst(items);
    SoundOfFirst(dec, items);
    AtSplit(data, pos, Encode(first), EncodeAll(rest));
  }

  lemma EntriesGoOn(dec: Decoder, data: seq<Byte>, pos: nat, n: nat, done: seq<Entry>)
    requires pos <= |data| && n > 0 && EntriesAt(dec, data, pos, n, done).Got?
    ensures var r := EntryAt(dec, data, pos);
            && r.Got? && EntriesAt(dec, data, r.next, n - 1, Put(done, r.value.key, r.value.value)).Got?
            && ItemAt(dec, data, pos).Got? && Hashable(ItemAt(dec, data, pos).value)
            && ItemAt(dec, data, ItemAt(dec, data, pos).next).Got?
            && r.next == ItemAt(dec, data, ItemAt(dec, data, pos).next).next
  {
  }

  lemma {:induction false} ReadPairs(dec: Decoder, data: seq<Byte>, pos: nat, n: nat, done: seq<Entry>)
    returns (flat: seq<Tree>)
    requires pos <= |data| && EntriesAt(dec, data, pos, n, done).Got?
    ensures AllWritten(dec, data, pos, 2 * n, flat) && ScalarKeys(flat)
    decreases |data| - pos, 5
  {
    flat := [];
    if n > 0 {
      EntriesGoOn(dec, data, pos, n, done);
      var r, middle := EntryAt(dec, data, pos), ItemAt(dec, data, pos).next;
      var key, value := ReadEntry(dec, data, pos, middle, r.next);
      flat := ReadMorePairs(dec, data, pos, n, Put(done, r.value.key, r.value.value), middle, r.next, key, value);
    }
  }

  lemma {:induction false} ReadMorePairs(dec: Decoder, data: seq<Byte>, pos: nat, n: nat, done: seq<Entry>, middle: nat,
                                         next: nat, key: Tree, value: Tree)
    returns (flat: seq<Tree>)
    requires n > 0 && pos < next <= |data| && EntriesAt(dec, data, next, n - 1, done).Got?
    requires EntryWritten(dec, data, pos, middle, next, key, value)
    ensures AllWritten(dec, data, pos, 2 * n, flat) && ScalarKeys(flat)
    decreases |data| - pos, 4
  {
    var rest := ReadPairs(dec, data, next, n - 1, done);
    PairInFront(dec, data, pos, middle, next, key, value, 2 * (n - 1), rest);
    flat := [key] + ([value] + rest);
  }

  lemma {:induction false} ReadEntry(dec: Decoder, data: seq<Byte>, pos: nat, middle: nat, next: nat)
    returns (key: Tree, value: Tree)
    requires pos <= |data| && ItemAt(dec, data, pos).Got? && Hashable(ItemAt(dec, data, pos).value)
    requires pos < middle == ItemAt(dec, data, pos).next <= |data| && ItemAt(dec, data, middle).Got?
    requires next == ItemAt(dec, data, middle).next
    ensures EntryWritten(dec, data, pos, middle, next, key, value)
    decreases |data| - pos, 3
  {
    key := ReadKey(dec, data, pos, middle);
    value := ReadFirst(dec, data, middle);
  }

  lemma {:induction false} ReadKey(dec: Decoder, data: seq<Byte>, pos: nat, middle: nat) returns (key: Tree)
    requires pos <= |data| && ItemAt(dec, data, pos).Got? && Hashable(ItemAt(dec, data, pos).value)
    requires middle == ItemAt(dec, data, pos).next
    ensures Written(dec, data, pos, key) && IsScalar(key) && middle == pos + |Encode(key)|
    decreases |data| - pos, 2
  {
    key := ReadFirst(dec, data, pos);
  }

  /** A scalar key and a value are written one after the other. */
  predicate EntryWritten(dec: Decoder, data: seq<Byte>, pos: nat, middle: nat, next: nat, key: Tree, value: Tree) {
    && Written(dec, data, pos, key) && IsScalar(key) && middle == pos + |Encode(key)|
    && Written(dec, data, middle, value) && next == middle + |Encode(value)|
  }

  lemma PairInFront(dec: Decoder, data: seq<Byte>, pos: nat, middle: nat, next: nat, key: Tree, value: Tree, n: nat,
                    rest: seq<Tree>)
    requires EntryWritten(dec, data, pos, middle, next, key, value)
    requires AllWritten(dec, data, next, n, rest) && ScalarKeys(rest)
    ensures AllWritten(dec, data, pos, n + 2, [key] + ([value] + rest)) && ScalarKeys([key] + ([value] + rest))
  {
    WrittenInFront(dec, data, middle, value, n, rest);
    WrittenInFront(dec, data, pos, key, n + 1, [value] + rest);
    ScalarKeyInFront(key, value, rest);
  }

  lemma ScalarKeyInFront(key: Tree, value: Tree, rest: seq<Tree>)
    requires IsScalar(key) && ScalarKeys(rest)
    ensures ScalarKeys([key] + ([value] + rest))
  {
    assert ([key] + ([value] + rest))[2..] == rest;
  }

  /** What loads is an encoding: the reader accepts nothing else, and gives it its own meaning. */
  lemma OnlyEncodingsLoad(dec: Decoder, data: seq<Byte>) returns (t: Tree)
    requires Loads(dec, data).Got?
    ensures Sound(dec, t) && Encode(t) == data && Meaning(dec, t) == Loads(dec, data).value
  {
    t := ReadItem(dec, data, 0);
    ItemReads(dec, data, 0, t);
    assert data[0..|data|] == data;
  }
}
