/** The typed readers and writers of ByteArray, and what a mixed sequence of them gives back. */
module TypedIO {
  import opened Bytes
  import opened Codec
  import opened FlatBuffer
  import opened Numbers
  import opened ByteArrays

  // ---------- specification ----------

  datatype Prefix = F16 | F32 | F64 | Vint

  /** What the caller asks for: readFint8..readFuint64, readInt32..readUint64, readStringF16..Vint. */
  datatype Kind =
    | FixedKind(width: nat, signed: bool)
    | VarintKind(bits: nat, signed: bool)
    | StringKind(prefix: Prefix)
  {
    predicate Valid() {
      match this
      case FixedKind(w, _) => w == 1 || w == 2 || w == 4 || w == 8
      case VarintKind(b, _) => b == 32 || b == 64
      case StringKind(_) => true
    }

    /** How many values the kind's word has. */
    function Range(): (m: nat)
      requires Valid() && !StringKind?
      ensures m == Pow256(if FixedKind? then width else bits / 8) && m % 2 == 0
    {
      Pow256Widths();
      match this
      case FixedKind(w, _) => Pow256(w)
      case VarintKind(b, _) => if b == 32 then TWO_32 else TWO_64
    }
  }

  datatype Item = Number(kind: Kind, value: int) | Text(prefix: Prefix, text: seq<Byte>) {
    function Kind(): Kind {
      match this
      case Number(k, _) => k
      case Text(p, _) => StringKind(p)
    }

    /** The values the C++ parameter types admit. */
    predicate Valid() {
      match this
      case Number(k, v) => k.Valid() && !k.StringKind?
          && (if k.signed then InSigned(v, k.Range()) else 0 <= v < k.Range())
      case Text(_, t) => |t| < TWO_64
    }

    /** The length field can hold the string's length. */
    predicate Fits() {
      match this
      case Number(_, _) => true
      case Text(p, t) => (p == F16 ==> |t| < TWO_16) && (p == F32 ==> |t| < TWO_32)
    }
  }

  /** The unsigned word a number is written as. */
  function Word(k: Kind, v: int): (u: nat)
    requires Number(k, v).Valid()
    ensures u < k.Range()
  {
    if !k.signed then v
    else if k.FixedKind? then ToUnsigned(v, k.Range())
    else if k.bits == 32 then EncodeZigzag32(v) else EncodeZigzag64(v)
  }

  function Unword(k: Kind, u: nat): (v: int)
    requires k.Valid() && !k.StringKind? && u < k.Range()
    ensures Number(k, v).Valid()
  {
    if !k.signed then u
    else if k.FixedKind? then ToSigned(u, k.Range())
    else if k.bits == 32 then (Zigzag32Bijection(0, u); DecodeZigzag32(u))
    else (Zigzag64Bijection(0, u); DecodeZigzag64(u))
  }

  lemma WordRoundTrip(k: Kind, v: int)
    requires Number(k, v).Valid()
    ensures Unword(k, Word(k, v)) == v
  {
    if k.signed {
      match k
      case FixedKind(_, _) => SignedRoundTrip(v, k.Range());
      case VarintKind(bits, _) => if bits == 32 { Zigzag32Bijection(v, 0); } else { Zigzag64Bijection(v, 0); }
      case StringKind(_) =>
    }
  }

  datatype Order = Order(little: bool, hostLittle: bool)

  function NumberBytes(k: Kind, v: int, o: Order): (bs: seq<Byte>)
    requires Number(k, v).Valid()
    ensures |bs| > 0
  {
    var u := Word(k, v);
    match k
    case FixedKind(w, _) => FixedBytes(u, w, o.little, o.hostLittle)
    case VarintKind(_, _) => VarintBytes(u)
  }

  function PrefixKind(p: Prefix): (k: Kind)
    ensures k.Valid() && !k.StringKind?
  {
    match p
    case F16 => FixedKind(2, false)
    case F32 => FixedKind(4, false)
    case F64 => FixedKind(8, false)
    case Vint => VarintKind(64, false)
  }

  /** The length as the prefix's unsigned type receives it. */
  function PrefixValue(p: Prefix, n: nat): (v: nat)
    requires n < TWO_64
    ensures Number(PrefixKind(p), v).Valid()
    ensures v == n <==> ((p == F16 ==> n < TWO_16) && (p == F32 ==> n < TWO_32))
    ensures v <= n
  {
    Pow256Widths();
    if p == F16 then (SmallModulus(n, TWO_16); n % TWO_16)
    else if p == F32 then (SmallModulus(n, TWO_32); n % TWO_32)
    else n
  }

  function PrefixBytes(p: Prefix, n: nat, o: Order): (bs: seq<Byte>)
    requires n < TWO_64
    ensures |bs| > 0
  {
    NumberBytes(PrefixKind(p), PrefixValue(p, n), o)
  }

  function ItemBytes(i: Item, o: Order): (bs: seq<Byte>)
    requires i.Valid()
    ensures |bs| > 0
  {
    match i
    case Number(k, v) => NumberBytes(k, v, o)
    case Text(p, t) => PrefixBytes(p, |t|, o) + t
  }

  function AllBytes(items: seq<Item>, o: Order): seq<Byte>
    requires forall i :: i in items ==> i.Valid()
  {
    if items == [] then [] else ItemBytes(items[0], o) + AllBytes(items[1..], o)
  }

  // ---------- what is on the wire ----------

  /** Octet k of w in the array's order denotes digit k, to the base 256, of `n` modulo 256^w: two's complement
      for a negative number. */
  ghost predicate Denotes(bs: seq<Byte>, n: int, w: nat, little: bool) {
    |bs| == w && forall k :: 0 <= k < w ==>
      bs[if little then k else w - 1 - k] == n % Pow256(w) / Pow256(k) % 256
  }

  lemma FixedDenotes(u: nat, w: nat, o: Order)
    requires u < Pow256(w)
    ensures Denotes(FixedBytes(u, w, o.little, o.hostLittle), u, w, o.little)
  {
    SmallModulus(u, Pow256(w));
    var r := u % Pow256(w);
    forall k | 0 <= k < w
      ensures FixedBytes(u, w, o.little, o.hostLittle)[if o.little then k else w - 1 - k] == r / Pow256(k) % 256
    {
      FixedOctet(u, w, k, o);
    }
    hide FixedBytes, Pow256;
  }

  lemma FixedOctet(u: nat, w: nat, k: nat, o: Order)
    requires k < w
    ensures FixedBytes(u, w, o.little, o.hostLittle)[if o.little then k else w - 1 - k] == u / Pow256(k) % 256
  {
    FixedBytesPortable(u, w, o.little, o.hostLittle);
    LittleEndianAt(u, w, k);
    hide FixedBytes, Pow256, LittleEndian;
    if !o.little { ReverseAt(LittleEndian(u, w), w - 1 - k); }
  }

  /** The number a varint of this kind carries: itself, or its place in the sequence 0, -1, 1, -2, 2 and so on. */
  function Carried(k: Kind, v: int): int
    requires !k.StringKind?
  {
    if !k.signed then v else if v < 0 then -2 * v - 1 else 2 * v
  }

  lemma NumberOnWire(k: Kind, v: int, o: Order)
    requires Number(k, v).Valid()
    ensures k.FixedKind? ==> Denotes(NumberBytes(k, v, o), v, k.width, o.little)
    ensures k.VarintKind? ==>
      && Carried(k, v) >= 0 && IsVarint(NumberBytes(k, v, o), Carried(k, v))
      && |NumberBytes(k, v, o)| <= (if k.bits == 32 then 5 else 10)
  {
    var u := Word(k, v);
    Pow256Widths();
    match k
    case FixedKind(w, signed) =>
      FixedDenotes(u, w, o);
      if v < 0 { WrapsAround(v, Pow256(w)); }
    case VarintKind(b, signed) =>
      VarintBytesAre(u);
      if signed && b == 32 { Zigzag32Bijection(v, 0); }
      if signed && b == 64 { Zigzag64Bijection(v, 0); }
      if b == 32 { Varint32RoundTrip(u, []); } else { Varint64RoundTrip(u, []); }
    case StringKind(_) =>
  }

  lemma WrapsAround(v: int, m: nat)
    requires 0 - m <= v < 0
    ensures m > 0 && v % m == (v + m) % m
  {
    SmallModulus(v + m, m);
  }

  /** A string is written as its length, in 2, 4 or 8 octets modulo 2^16, 2^32 or 2^64 or as a varint, and then
      its text; a fixed-width number as its octets in the array's order; and a varint as one. */
  lemma ItemOnWire(i: Item, o: Order)
    requires i.Valid()
    ensures i.Number? && i.kind.FixedKind? ==> Denotes(ItemBytes(i, o), i.value, i.kind.width, o.little)
    ensures i.Number? && i.kind.VarintKind? ==>
      Carried(i.kind, i.value) >= 0 && IsVarint(ItemBytes(i, o), Carried(i.kind, i.value))
          && |ItemBytes(i, o)| <= (if i.kind.bits == 32 then 5 else 10)
    ensures i.Text? ==> var n, m := |i.text|, |ItemBytes(i, o)| - |i.text|;
      && m >= 0 && ItemBytes(i, o)[m..] == i.text
      && (i.prefix == F16 ==> m == 2 && Denotes(ItemBytes(i, o)[..m], n, 2, o.little))
      && (i.prefix == F32 ==> m == 4 && Denotes(ItemBytes(i, o)[..m], n, 4, o.little))
      && (i.prefix == F64 ==> m == 8 && Denotes(ItemBytes(i, o)[..m], n, 8, o.little))
      && (i.prefix == Vint ==> 1 <= m <= 10 && IsVarint(ItemBytes(i, o)[..m], n))
  {
    hide NumberBytes, Denotes, IsVarint;
    match i
    case Number(k, v) => NumberOnWire(k, v, o);
    case Text(p, t) =>
      var bs := PrefixBytes(p, |t|, o);
      NumberOnWire(PrefixKind(p), PrefixValue(p, |t|), o);
      if p != Vint { Truncated(p, |t|, bs, o); }
      assert ItemBytes(i, o)[..|bs|] == bs && ItemBytes(i, o)[|bs|..] == t;
  }

  /** What the conversion to the prefix's type drops makes no difference to its octets. */
  lemma Truncated(p: Prefix, n: nat, bs: seq<Byte>, o: Order)
    requires n < TWO_64 && p != Vint && PrefixKind(p).FixedKind?
    requires Denotes(bs, PrefixValue(p, n), PrefixKind(p).width, o.little)
    ensures Denotes(bs, n, PrefixKind(p).width, o.little)
  {
    Pow256Widths();
    SmallModulus(PrefixValue(p, n), Pow256(PrefixKind(p).width));
  }

  // ---------- what a run of writes leaves ----------

  ghost predicate WroteItem(f: Flat, i: Item, g: Flat, base: nat, o: Order)
    requires i.Valid()
  {
    match i
    case Number(k, v) => Wrote(f, NumberBytes(k, v, o), g, base)
    case Text(p, t) => exists h :: Wrote(f, PrefixBytes(p, |t|, o), h, base) && Wrote(h, t, g, base)
  }

  ghost predicate WroteAll(f: Flat, items: seq<Item>, g: Flat, base: nat, o: Order)
    requires forall i :: i in items ==> i.Valid()
    decreases |items|
  {
    if items == [] then f == g
    else exists h :: WroteItem(f, items[0], h, base, o) && WroteAll(h, items[1..], g, base, o)
  }

  /** A buffer only ever appended to: the cursor is at the end and the capacity is the least that fits. */
  ghost predicate Appended(f: Flat, base: nat) {
    f.Valid(base) && f.pos == f.size && |f.mem| == BlockStart(Max(1, BlocksFor(f.size, base)), base)
  }

  /** Growing one step at a time ends where growing at once would. */
  lemma GrowthIsTight(n: nat, more: nat, base: nat)
    requires base > 0
    ensures n <= BlockStart(Max(1, BlocksFor(n, base)), base)
    ensures GrownCapacity(BlockStart(Max(1, BlocksFor(n, base)), base), n, more, base)
         == BlockStart(Max(1, BlocksFor(n + more, base)), base)
  {
    var b := Max(1, BlocksFor(n, base));
    var cap := BlockStart(b, base);
    assert n <= cap;
    hide BlockStart, BlocksFor;
    if more <= cap - n {
      LeastBlocks(n + more, Max(1, BlocksFor(n + more, base)), b, base);
      LeastBlocks(n, b, Max(1, BlocksFor(n + more, base)), base);
    } else {
      GrowthOverflows(n, b, more, base);
    }
  }

  lemma GrowthOverflows(n: nat, b: nat, more: nat, base: nat)
    requires base > 0 && b > 0 && n <= BlockStart(b, base) && more > BlockStart(b, base) - n
    ensures var c := BlocksFor(more - (BlockStart(b, base) - n), base);
      BlockStart(b, base) + BlockStart(c, base) == BlockStart(b + c, base) && BlocksFor(n + more, base) == b + c
  {
    var c := BlocksFor(more - (BlockStart(b, base) - n), base);
    hide BlockStart, BlocksFor;
    BlockStartSum(b, c, base);
    BlockStartSum(b, c - 1, base);
    BlocksUnique(n + more, b + c, base);
  }

  /** No smaller block count than BlocksFor's reaches n. */
  lemma LeastBlocks(n: nat, b: nat, c: nat, base: nat)
    requires base > 0 && b == Max(1, BlocksFor(n, base)) && c > 0 && n <= BlockStart(c, base)
    ensures b <= c
  {
    if c < b { BlockStartMonotone(c, b - 1, base); }
  }

  lemma BlocksUnique(n: nat, b: nat, base: nat)
    requires base > 0 && b > 0 && BlockStart(b - 1, base) < n <= BlockStart(b, base)
    ensures BlocksFor(n, base) == b
  {
    var c := BlocksFor(n, base);
    if c < b { BlockStartMonotone(c, b - 1, base); }
    if b < c { BlockStartMonotone(b, c - 1, base); }
  }

  lemma AppendStep(f: Flat, d: seq<Byte>, g: Flat, base: nat)
    requires Appended(f, base) && Wrote(f, d, g, base)
    ensures f.size <= |f.mem| && g.size <= |g.mem|
    ensures Appended(g, base) && g.Content() == f.Content() + d
  {
    WroteEffect(f, d, g, base);
    GrowthIsTight(f.size, |d|, base);
  }

  lemma AppendItem(f: Flat, i: Item, g: Flat, base: nat, o: Order)
    requires i.Valid() && Appended(f, base) && WroteItem(f, i, g, base, o)
    ensures f.size <= |f.mem| && g.size <= |g.mem|
    ensures Appended(g, base) && g.Content() == f.Content() + ItemBytes(i, o)
  {
    hide NumberBytes, PrefixBytes, Wrote, Appended;
    match i
    case Number(k, v) => AppendStep(f, NumberBytes(k, v, o), g, base);
    case Text(p, t) =>
      var h :| Wrote(f, PrefixBytes(p, |t|, o), h, base) && Wrote(h, t, g, base);
      AppendStep(f, PrefixBytes(p, |t|, o), h, base);
      AppendStep(h, t, g, base);
      assert g.Content() == f.Content() + (PrefixBytes(p, |t|, o) + t);
  }

  lemma Regrouped(a: seq<Byte>, b: seq<Byte>, c: seq<Byte>)
    ensures a + b + c == a + (b + c)
  {}

  lemma {:induction false} AppendAll(f: Flat, items: seq<Item>, g: Flat, base: nat, o: Order)
    requires forall i :: i in items ==> i.Valid()
    requires Appended(f, base) && WroteAll(f, items, g, base, o)
    ensures f.size <= |f.mem| && g.size <= |g.mem|
    ensures Appended(g, base) && g.Content() == f.Content() + AllBytes(items, o)
    decreases |items|
  {
    assert f.size <= |f.mem|;
    hide Wrote, ItemBytes, WroteItem, Appended;
    if items != [] {
      var h :| WroteItem(f, items[0], h, base, o) && WroteAll(h, items[1..], g, base, o);
      hide WroteAll;
      AppendItem(f, items[0], h, base, o);
      AppendAll(h, items[1..], g, base, o);
      Regrouped(f.Content(), ItemBytes(items[0], o), AllBytes(items[1..], o));
    } else {
      assert f.Content() + [] == f.Content();
    }
  }

  // ---------- what reads return ----------

  /** A typed read gives a value, throws out_of_range, or dereferences the null current node. */
  datatype Reading<T> = Value(value: T) | Thrown | Crashed

  function Unread(f: Flat): seq<Byte>
    requires f.pos <= f.size <= |f.mem|
  {
    f.mem[f.pos..f.size]
  }

  /** A varint reader eats bytes one by one, so on a throw it has eaten them all. */
  function ReadWord(f: Flat, k: Kind, o: Order): (r: (Reading<nat>, Flat))
    requires f.pos <= f.size <= |f.mem| && k.Valid() && !k.StringKind?
    ensures r.1.pos <= r.1.size <= |r.1.mem|
    ensures r.0.Value? ==> r.0.value < k.Range()
  {
    Pow2Words();
    match k
    case FixedKind(w, _) =>
      (match ReadOutcome(f, w)
       case Ok(bs) => (Value(FixedValue(bs, o.little, o.hostLittle)), AfterRead(f, w))
       case OutOfRange => (Thrown, f)
       case NullNode => (Crashed, f))
    case VarintKind(b, _) =>
      var n := VarintLength(Unread(f), b);
      if n <= |Unread(f)| then (Value(VarintValue(Unread(f), b)), f.(pos := f.pos + n))
      else (Thrown, f.(pos := f.size))
  }

  /** A typed read. A string reads its length first and then even an empty text from the current node. */
  function ReadItem(f: Flat, k: Kind, o: Order): (r: (Reading<Item>, Flat))
    requires f.pos <= f.size <= |f.mem| && k.Valid()
    ensures r.1.pos <= r.1.size <= |r.1.mem|
  {
    match k
    case StringKind(p) =>
      var (w, g) := ReadWord(f, PrefixKind(p), o);
      (match w
       case Value(n) =>
         (match ReadOutcome(g, n)
          case Ok(t) => (Value(Text(p, t)), AfterRead(g, n))
          case OutOfRange => (Thrown, g)
          case NullNode => (Crashed, g))
       case Thrown => (Thrown, g)
       case Crashed => (Crashed, g))
    case _ =>
      var (w, g) := ReadWord(f, k, o);
      (match w
       case Value(u) => (Value(Number(k, Unword(k, u))), g)
       case Thrown => (Thrown, g)
       case Crashed => (Crashed, g))
  }

  function ReadAll(f: Flat, kinds: seq<Kind>, o: Order): (r: (Reading<seq<Item>>, Flat))
    requires f.pos <= f.size <= |f.mem| && (forall k :: k in kinds ==> k.Valid())
    ensures r.1.pos <= r.1.size <= |r.1.mem|
    decreases |kinds|
  {
    if kinds == [] then (Value([]), f)
    else
      var (i, g) := ReadItem(f, kinds[0], o);
      match i
      case Thrown => (Thrown, g)
      case Crashed => (Crashed, g)
      case Value(x) =>
        var (xs, h) := ReadAll(g, kinds[1..], o);
        (match xs
         case Value(ys) => (Value([x] + ys), h)
         case Thrown => (Thrown, h)
         case Crashed => (Crashed, h))
  }

  // ---------- reading back ----------

  lemma UnreadPrefix(f: Flat, n: nat)
    requires f.pos <= f.size <= |f.mem| && n <= |Unread(f)|
    ensures f.mem[f.pos..f.pos + n] == Unread(f)[..n]
  {}

  lemma WordReadsBack(f: Flat, k: Kind, v: int, rest: seq<Byte>, o: Order)
    requires f.pos <= f.size <= |f.mem| && Number(k, v).Valid()
    requires Unread(f) == NumberBytes(k, v, o) + rest
    ensures ReadWord(f, k, o) == (Value(Word(k, v)), f.(pos := f.pos + |NumberBytes(k, v, o)|))
  {
    hide Word;
    if k.FixedKind? {
      FixedReadsBack(f, k, Word(k, v), rest, o);
    } else {
      VarintReadsBack(f, k, Word(k, v), rest, o);
    }
  }

  lemma FixedReadsBack(f: Flat, k: Kind, u: nat, rest: seq<Byte>, o: Order)
    requires f.pos <= f.size <= |f.mem| && k.Valid() && k.FixedKind? && u < k.Range()
    requires Unread(f) == FixedBytes(u, k.width, o.little, o.hostLittle) + rest
    ensures ReadWord(f, k, o) == (Value(u), f.(pos := f.pos + k.width))
  {
    FixedRoundTrip(u, k.width, o.little, o.hostLittle);
    UnreadPrefix(f, k.width);
    hide FixedBytes, FixedValue;
  }

  lemma VarintReadsBack(f: Flat, k: Kind, u: nat, rest: seq<Byte>, o: Order)
    requires f.pos <= f.size <= |f.mem| && k.Valid() && k.VarintKind? && u < k.Range()
    requires Unread(f) == VarintBytes(u) + rest
    ensures ReadWord(f, k, o) == (Value(u), f.(pos := f.pos + |VarintBytes(u)|))
  {
    if k.bits == 32 { Varint32RoundTrip(u, rest); } else { Varint64RoundTrip(u, rest); }
    hide VarintBytes, VarintLength, VarintValue, Unread;
    assert |Unread(f)| == |VarintBytes(u)| + |rest|;
  }

  /** Reading one item back gives it, unless its length field overflowed or it is an empty text
      whose prefix ends exactly at the capacity. */
  lemma ItemReadsBack(f: Flat, i: Item, rest: seq<Byte>, o: Order)
    requires f.pos <= f.size <= |f.mem| && i.Valid()
    requires Unread(f) == ItemBytes(i, o) + rest
    ensures i.Fits() && !(i.Text? && i.text == [] && f.pos + |ItemBytes(i, o)| == |f.mem|)
        ==> ReadItem(f, i.Kind(), o) == (Value(i), f.(pos := f.pos + |ItemBytes(i, o)|))
    ensures i.Fits() && i.Text? && i.text == [] && f.pos + |ItemBytes(i, o)| == |f.mem|
        ==> ReadItem(f, i.Kind(), o).0.Crashed?
    ensures !i.Fits() ==> ReadItem(f, i.Kind(), o).0 != Value(i)
  {
    hide NumberBytes, ReadWord;
    match i
    case Number(k, v) =>
      WordReadsBack(f, k, v, rest, o);
      WordRoundTrip(k, v);
    case Text(p, t) =>
      var n := PrefixValue(p, |t|);
      var bs := PrefixBytes(p, |t|, o);
      assert Unread(f) == bs + (t + rest);
      WordReadsBack(f, PrefixKind(p), n, t + rest, o);
      var g := f.(pos := f.pos + |bs|);
      assert Unread(g) == t + rest;
      UnreadPrefix(g, n);
      assert Unread(g)[..n] == t[..n];
  }

  function Kinds(items: seq<Item>): (ks: seq<Kind>)
    requires forall i :: i in items ==> i.Valid()
    ensures forall k :: k in ks ==> k.Valid()
    decreases |items|
  {
    if items == [] then []
    else
      assert items[0].Valid();
      [items[0].Kind()] + Kinds(items[1..])
  }

  predicate AllFit(items: seq<Item>) {
    forall i :: i in items ==> i.Fits()
  }

  predicate EndsWithEmptyText(items: seq<Item>) {
    items != [] && items[|items| - 1].Text? && items[|items| - 1].text == []
  }

  /** Reading a sequence: the first item, then the others from where it ended. */
  lemma ReadAllSteps(f: Flat, i: Item, rest: seq<Item>, o: Order, g: Flat)
    requires f.pos <= f.size <= |f.mem| && g.pos <= g.size <= |g.mem|
    requires i.Valid() && (forall x :: x in rest ==> x.Valid())
    ensures ReadItem(f, i.Kind(), o) == (Value(i), g) ==>
      var (xs, h) := ReadAll(g, Kinds(rest), o);
      var (ys, h') := ReadAll(f, Kinds([i] + rest), o);
      && h' == h && (ys == Value([i] + rest) <==> xs == Value(rest)) && (xs.Crashed? ==> ys.Crashed?)
    ensures ReadItem(f, i.Kind(), o).0.Crashed? ==> ReadAll(f, Kinds([i] + rest), o).0.Crashed?
    ensures ReadItem(f, i.Kind(), o).0 != Value(i) ==> ReadAll(f, Kinds([i] + rest), o).0 != Value([i] + rest)
  {
    hide ReadItem;
    assert ([i] + rest)[1..] == rest;
    assert Kinds([i] + rest) == [i.Kind()] + Kinds(rest);
    var xs := ReadAll(g, Kinds(rest), o).0;
    if xs.Value? && [i] + xs.value == [i] + rest {
      assert xs.value == ([i] + xs.value)[1..] && rest == ([i] + rest)[1..];
    }
  }

  lemma FirstAndRest(items: seq<Item>, o: Order)
    requires items != [] && forall i :: i in items ==> i.Valid()
    ensures items == [items[0]] + items[1..]
    ensures items[0].Valid() && forall i :: i in items[1..] ==> i.Valid()
    ensures AllFit(items) <==> items[0].Fits() && AllFit(items[1..])
    ensures EndsWithEmptyText(items) <==>
      if items[1..] == [] then items[0].Text? && items[0].text == [] else EndsWithEmptyText(items[1..])
    ensures AllBytes(items, o) == ItemBytes(items[0], o) + AllBytes(items[1..], o)
    ensures AllBytes(items[1..], o) == [] <==> items[1..] == []
  {
    hide ItemBytes;
  }

  lemma SkipUnread(f: Flat, a: seq<Byte>, b: seq<Byte>)
    requires f.pos <= f.size <= |f.mem| && Unread(f) == a + b
    ensures f.pos + |a| <= f.size && Unread(f.(pos := f.pos + |a|)) == b
    ensures f.pos + |a| == f.size <==> b == []
  {}

  lemma {:induction false} ReadsBack(f: Flat, items: seq<Item>, o: Order)
    requires forall i :: i in items ==> i.Valid()
    requires f.pos <= f.size <= |f.mem| && Unread(f) == AllBytes(items, o)
    ensures AllFit(items) && !(EndsWithEmptyText(items) && f.size == |f.mem|)
        ==> ReadAll(f, Kinds(items), o) == (Value(items), f.(pos := f.size))
    ensures AllFit(items) && EndsWithEmptyText(items) && f.size == |f.mem|
        ==> ReadAll(f, Kinds(items), o).0.Crashed?
    ensures !AllFit(items) ==> ReadAll(f, Kinds(items), o).0 != Value(items)
    decreases |items|
  {
    if items != [] {
      hide ReadItem, ItemBytes, ReadAll, Kinds, AllBytes, AllFit, EndsWithEmptyText, Unread, Item.Fits;
      var i, rest := items[0], items[1..];
      var g := f.(pos := f.pos + |ItemBytes(i, o)|);
      FirstAndRest(items, o);
      SkipUnread(f, ItemBytes(i, o), AllBytes(rest, o));
      ItemReadsBack(f, i, AllBytes(rest, o), o);
      ReadAllSteps(f, i, rest, o, g);
      ReadsBack(g, rest, o);
    }
  }

  lemma FullExactlyAtBoundary(n: nat, base: nat)
    requires base > 0 && n > 0
    ensures BlockStart(Max(1, BlocksFor(n, base)), base) == n <==> n % base == 0
  {
    if n % base == 0 {
      MultipleFills(n, base);
    } else if BlockStart(BlocksFor(n, base), base) == n {
      BlockDivMod(BlocksFor(n, base), base, 0);
    }
  }

  lemma MultipleFills(n: nat, base: nat)
    requires base > 0 && n > 0 && n % base == 0
    ensures BlockStart(BlocksFor(n, base), base) == n
  {
    var q := n / base;
    assert n == q * base && q > 0;
    BlockStartIs(q, base);
    assert BlockStart(q, base) == BlockStart(q - 1, base) + base;
    BlocksUnique(n, q, base);
  }

  /** Any mixed sequence of typed writes to a fresh array, rewound and read with the same sequence of
      reads, gives the same values and leaves nothing unread, for every block size and byte order,
      exactly when every length field could hold its length and the sequence does not end with an
      empty string at a block boundary (there the last read dereferences the null current node). */
  lemma RoundTrip(base: nat, f: Flat, items: seq<Item>, g: Flat, o: Order)
    requires base > 0 && forall i :: i in items ==> i.Valid()
    requires |f.mem| == base && f.pos == f.size == 0 && WroteAll(f, items, g, base, o)
    ensures g.pos == g.size == |AllBytes(items, o)| <= |g.mem|
    ensures var (r, h) := ReadAll(g.(pos := 0), Kinds(items), o);
            r == Value(items) && h.ReadSize() == 0
            <==> AllFit(items) && !(EndsWithEmptyText(items) && |AllBytes(items, o)| % base == 0)
  {
    assert BlockStart(1, base) == base;
    AppendAll(f, items, g, base, o);
    assert g.Content() == AllBytes(items, o);
    assert Unread(g.(pos := 0)) == AllBytes(items, o);
    ReadsBack(g.(pos := 0), items, o);
    if items != [] {
      FirstAndRest(items, o);
      FullExactlyAtBoundary(g.size, base);
    }
  }

  // ---------- the methods ----------

  lemma TwoStretches(mem: seq<Byte>, a: nat, b: nat, c: nat)
    requires a <= b <= c <= |mem|
    ensures mem[a..c] == mem[..b][a..] + mem[b..c] && mem[..a] == mem[..b][..a] && mem[a..b] == mem[..b][a..]
  {}

  /** A written item stands in the buffer from the old position to the new one. */
  lemma ItemWritten(f: Flat, i: Item, g: Flat, base: nat, o: Order)
    requires i.Valid() && WroteItem(f, i, g, base, o)
    ensures f.pos <= |f.mem| && g.pos == f.pos + |ItemBytes(i, o)| <= |g.mem| && g.mem[f.pos..g.pos] == ItemBytes(i, o)
    ensures g.mem[..f.pos] == f.mem[..f.pos] && g.size == Max(f.size, g.pos)
  {
    hide NumberBytes, PrefixBytes, Wrote, GrownCapacity, Patch;
    match i
    case Number(k, v) => WroteEffect(f, NumberBytes(k, v, o), g, base);
    case Text(p, t) =>
      var bs := PrefixBytes(p, |t|, o);
      var h :| Wrote(f, bs, h, base) && Wrote(h, t, g, base);
      WroteEffect(f, bs, h, base);
      WroteEffect(h, t, g, base);
      TwoStretches(g.mem, f.pos, h.pos, g.pos);
      TwoStretches(h.mem, f.pos, h.pos, h.pos);
  }

  method WriteFixed(ba: ByteArray, k: Kind, v: int, hostLittle: bool)
    requires ba.Valid() && Number(k, v).Valid() && k.FixedKind?
    modifies ba.Repr
    ensures ba.Valid() && fresh(ba.Repr - old(ba.Repr)) && old(ba.Repr) <= ba.Repr
    ensures ba.little == old(ba.little)
    ensures Wrote(old(ba.View()), NumberBytes(k, v, Order(ba.little, hostLittle)), ba.View(), ba.base)
  {
    var word := Word(k, v);
    if ba.little != hostLittle {
      word := ByteSwap(word, k.width);
    }
    ba.Write(HostBytes(word, k.width, hostLittle));
  }

  /** writeInt32 to writeUint64. */
  method WriteVarint(ba: ByteArray, k: Kind, v: int)
    requires ba.Valid() && Number(k, v).Valid() && k.VarintKind?
    modifies ba.Repr
    ensures ba.Valid() && fresh(ba.Repr - old(ba.Repr)) && old(ba.Repr) <= ba.Repr
    ensures ba.little == old(ba.little)
    ensures forall h :: Wrote(old(ba.View()), NumberBytes(k, v, Order(ba.little, h)), ba.View(), ba.base)
  {
    var tmp := EncodeVarint(Word(k, v));
    ba.Write(tmp);
  }

  method WriteItem(ba: ByteArray, i: Item, hostLittle: bool)
    requires ba.Valid() && i.Valid()
    modifies ba.Repr
    ensures ba.Valid() && fresh(ba.Repr - old(ba.Repr)) && old(ba.Repr) <= ba.Repr
    ensures ba.little == old(ba.little)
    ensures WroteItem(old(ba.View()), i, ba.View(), ba.base, Order(ba.little, hostLittle))
    ensures var f, g, bs := old(ba.View()), ba.View(), ItemBytes(i, Order(ba.little, hostLittle));
      g.pos == f.pos + |bs| <= |g.mem| && g.mem[f.pos..g.pos] == bs
  {
    hide NumberBytes, Wrote, ItemBytes;
    ghost var f := ba.View();
    match i {
      case Number(k, v) =>
        if k.FixedKind? { WriteFixed(ba, k, v, hostLittle); } else { WriteVarint(ba, k, v); }
      case Text(p, t) =>
        var k, v := PrefixKind(p), PrefixValue(p, |t|);
        if k.FixedKind? { WriteFixed(ba, k, v, hostLittle); } else { WriteVarint(ba, k, v); }
        ba.Write(t);
    }
    ItemWritten(f, i, ba.View(), ba.base, Order(ba.little, hostLittle));
  }

  method ReadFixed(ba: ByteArray, k: Kind, hostLittle: bool) returns (r: Reading<nat>)
    requires ba.Valid() && k.Valid() && k.FixedKind?
    modifies ba`position, ba`cur, ba`at
    ensures ba.Valid()
    ensures (r, ba.View()) == ReadWord(old(ba.View()), k, Order(ba.little, hostLittle))
  {
    var b := ba.Read(k.width);
    match b {
      case OutOfRange => r := Thrown;
      case NullNode => r := Crashed;
      case Ok(bs) =>
        var v := FromHostBytes(bs, hostLittle);
        r := Value(if ba.little == hostLittle then v else ByteSwap(v, k.width));
    }
  }

  /** `x << i` in a word of `bits` bits. */
  function ShiftLeft(x: nat, i: nat, bits: nat): (r: nat)
    requires i <= bits
    ensures r == Pow2(i) * Wrap(x, Pow2(bits - i))
  {
    ShiftedGroup(x, i, bits);
    Wrap(x * Pow2(i), Pow2(bits))
  }

  lemma {:induction false} Pow2Sum(a: nat, b: nat)
    ensures Pow2(a + b) == Pow2(a) * Pow2(b)
  {
    if a > 0 {
      Pow2Sum(a - 1, b);
      assert Pow2(a + b) == 2 * Pow2(a - 1 + b);
    }
  }

  lemma ShiftedGroup(x: nat, i: nat, bits: nat)
    requires i <= bits
    ensures Wrap(x * Pow2(i), Pow2(bits)) == Pow2(i) * Wrap(x, Pow2(bits - i))
  {
    Pow2Sum(i, bits - i);
    ScaledModulus(x, Pow2(i), Pow2(bits - i));
  }

  lemma ScaledModulus(x: nat, a: nat, b: nat)
    requires a > 0 && b > 0
    ensures a * b > 0 && x * a % (a * b) == a * (x % b)
  {
    var q, r := x / b, x % b;
    assert x * a == q * (a * b) + a * r by {
      assert x == q * b + r;
      assert (q * b + r) * a == q * b * a + r * a;
      assert q * b * a == q * (a * b) && r * a == a * r;
    }
    assert a * r < a * b by { assert r < b; }
    var y, m := x * a, a * b;
    assert y == (y / m) * m + y % m;
    QuotientUnique(y / m, y % m, q, a * r, m);
  }

  /** One more group of a varint under the reader's shift. */
  lemma VarintGroup(bs: seq<Byte>, i: nat, bits: nat)
    requires i < bits && bs != [] && VarintLength(bs, bits - i) <= |bs|
    ensures bs[0] < 128 || bits - i <= 7 ==>
      Pow2(i) * VarintValue(bs, bits - i) == ShiftLeft(bs[0] % 128, i, bits) && VarintLength(bs, bits - i) == 1
    ensures bs[0] >= 128 && bits - i > 7 ==>
      && VarintLength(bs[1..], bits - (i + 7)) == VarintLength(bs, bits - i) - 1
      && Pow2(i) * VarintValue(bs, bits - i)
         == ShiftLeft(bs[0] % 128, i, bits) + Pow2(i + 7) * VarintValue(bs[1..], bits - (i + 7))
  {
    if bs[0] >= 128 && bits - i > 7 {
      Pow2Seven(i);
      Pow2Seven(bits - i - 7);
      SmallModulus(bs[0] % 128, Pow2(bits - i));
      hide Pow2;
      Distributes(Pow2(i), bs[0] % 128, VarintValue(bs[1..], bits - i - 7), Pow2(i + 7));
    }
  }

  lemma Distributes(a: nat, x: nat, v: nat, b: nat)
    requires b == a * 128
    ensures a * (x + 128 * v) == a * x + b * v
  {
    assert a * (128 * v) == (a * 128) * v;
  }

  /** After `n` octets the reader holds the low `i` bits of the value the octets denote. */
  ghost predicate VarintState(all: seq<Byte>, n: nat, i: nat, bits: nat, result: nat) {
    && n <= |all|
    && (if i < bits
        then && VarintLength(all, bits) == n + VarintLength(all[n..], bits - i)
             && (VarintLength(all, bits) <= |all| ==>
                   VarintValue(all, bits) == result + Pow2(i) * VarintValue(all[n..], bits - i))
        else VarintLength(all, bits) == n && VarintValue(all, bits) == result)
  }

  lemma VarintStart(all: seq<Byte>, bits: nat)
    requires bits > 0
    ensures VarintState(all, 0, 0, bits, 0)
  {
    assert all[0..] == all;
  }

  lemma VarintNext(all: seq<Byte>, n: nat, i: nat, bits: nat, result: nat)
    requires VarintState(all, n, i, bits, result) && i < bits
    ensures n == |all| ==> VarintLength(all, bits) == n + 1
    ensures n < |all| ==> var next := result + ShiftLeft(all[n] % 128, i, bits);
      if all[n] < 128 then VarintLength(all, bits) == n + 1 && VarintValue(all, bits) == next
      else VarintState(all, n + 1, i + 7, bits, next)
  {
    if n < |all| {
      assert all[n..][0] == all[n] && all[n..][1..] == all[n + 1..];
      hide ShiftLeft, Pow2;
      if VarintLength(all[n..], bits - i) <= |all[n..]| {
        VarintGroup(all[n..], i, bits);
      }
    }
  }

  /** The loop of readUint32 and readUint64. `result |= g << i` only adds, as result is below 2^i. */
  method ReadVarint(ba: ByteArray, k: Kind, ghost hostLittle: bool) returns (r: Reading<nat>)
    requires ba.Valid() && k.Valid() && k.VarintKind?
    modifies ba`position, ba`cur, ba`at
    ensures ba.Valid()
    ensures (r, ba.View()) == ReadWord(old(ba.View()), k, Order(ba.little, hostLittle))
  {
    hide VarintValue, VarintLength, ShiftLeft, Pow2, VarintState, ByteArray.Shape, ByteArray.CursorAt;
    ghost var f := ba.View();
    ghost var all := Unread(f);
    var result: nat, i: nat := 0, 0;
    ghost var n: nat := 0;
    VarintStart(all, k.bits);
    while i < k.bits
      invariant ba.Valid() && n <= |all| && ba.View() == f.(pos := f.pos + n)
      invariant VarintState(all, n, i, k.bits, result)
    {
      VarintNext(all, n, i, k.bits, result);
      var b := ba.Read(1);
      if !b.Ok? {
        r := Thrown;
        return;
      }
      assert b.bytes[0] == all[n];
      result := result + ShiftLeft(b.bytes[0] % 128, i, k.bits);
      n := n + 1;
      if b.bytes[0] < 0x80 {
        r := Value(result);
        return;
      }
      i := i + 7;
    }
    VarintDone(all, n, i, k.bits, result);
    r := Value(result);
  }

  lemma VarintDone(all: seq<Byte>, n: nat, i: nat, bits: nat, result: nat)
    requires VarintState(all, n, i, bits, result) && i >= bits
    ensures n <= |all| && VarintLength(all, bits) == n && VarintValue(all, bits) == result
  {}

  method ReadTyped(ba: ByteArray, k: Kind, hostLittle: bool) returns (r: Reading<Item>)
    requires ba.Valid() && k.Valid()
    modifies ba`position, ba`cur, ba`at
    ensures ba.Valid()
    ensures (r, ba.View()) == ReadItem(old(ba.View()), k, Order(ba.little, hostLittle))
  {
    hide ReadWord;
    var wk := if k.StringKind? then PrefixKind(k.prefix) else k;
    var w: Reading<nat>;
    if wk.FixedKind? { w := ReadFixed(ba, wk, hostLittle); } else { w := ReadVarint(ba, wk, hostLittle); }
    match w {
      case Thrown => r := Thrown;
      case Crashed => r := Crashed;
      case Value(u) =>
        if k.StringKind? {
          var t := ba.Read(u);
          r := match t case Ok(bs) => Value(Text(k.prefix, bs)) case OutOfRange => Thrown case NullNode => Crashed;
        } else {
          r := Value(Number(k, Unword(k, u)));
        }
    }
  }

  // ---------- writing a sequence and reading it back ----------

  lemma {:induction false} WroteOneMore(f: Flat, items: seq<Item>, g: Flat, i: Item, h: Flat, base: nat, o: Order)
    requires (forall x :: x in items ==> x.Valid()) && i.Valid()
    requires WroteAll(f, items, g, base, o) && WroteItem(g, i, h, base, o)
    ensures (forall x :: x in items + [i] ==> x.Valid()) && WroteAll(f, items + [i], h, base, o)
    decreases |items|
  {
    hide WroteItem;
    if items == [] {
      assert (items + [i])[1..] == [] && WroteAll(h, [], h, base, o);
    } else {
      var k :| WroteItem(f, items[0], k, base, o) && WroteAll(k, items[1..], g, base, o);
      assert (items + [i])[1..] == items[1..] + [i];
      WroteOneMore(k, items[1..], g, i, h, base, o);
    }
  }

  method WriteAll(ba: ByteArray, items: seq<Item>, hostLittle: bool)
    requires ba.Valid() && forall i :: i in items ==> i.Valid()
    modifies ba.Repr
    ensures ba.Valid() && fresh(ba.Repr - old(ba.Repr)) && old(ba.Repr) <= ba.Repr
    ensures ba.little == old(ba.little)
    ensures WroteAll(old(ba.View()), items, ba.View(), ba.base, Order(ba.little, hostLittle))
  {
    hide WroteItem, WroteAll, ByteArray.Valid, ByteArray.View;
    ghost var f, o := ba.View(), Order(ba.little, hostLittle);
    assert WroteAll(f, items[..0], f, ba.base, o) by { NothingWritten(f, ba.base, o); assert items[..0] == []; }
    for k := 0 to |items|
      invariant ba.Valid() && fresh(ba.Repr - old(ba.Repr)) && old(ba.Repr) <= ba.Repr
      invariant ba.little == old(ba.little) && WroteAll(f, items[..k], ba.View(), ba.base, o)
    {
      ghost var g := ba.View();
      WriteItem(ba, items[k], hostLittle);
      WroteOneMore(f, items[..k], g, items[k], ba.View(), ba.base, o);
      assert items[..k + 1] == items[..k] + [items[k]];
    }
    assert items[..|items|] == items;
  }

  lemma NothingWritten(f: Flat, base: nat, o: Order)
    ensures WroteAll(f, [], f, base, o)
  {}

  /** What has been read already, put before what is still read. */
  function Before(xs: seq<Item>, p: (Reading<seq<Item>>, Flat)): (Reading<seq<Item>>, Flat) {
    if p.0.Value? then (Value(xs + p.0.value), p.1) else p
  }

  lemma ReadsOneMore(xs: seq<Item>, f: Flat, kinds: seq<Kind>, o: Order)
    requires f.pos <= f.size <= |f.mem| && kinds != [] && (forall k :: k in kinds ==> k.Valid())
    ensures var (i, g) := ReadItem(f, kinds[0], o);
      Before(xs, ReadAll(f, kinds, o)) ==
        match i
        case Value(x) => Before(xs + [x], ReadAll(g, kinds[1..], o))
        case Thrown => (Thrown, g)
        case Crashed => (Crashed, g)
  {
    hide ReadItem;
    var (i, g) := ReadItem(f, kinds[0], o);
    if i.Value? {
      var ys := ReadAll(g, kinds[1..], o).0;
      if ys.Value? { assert xs + ([i.value] + ys.value) == xs + [i.value] + ys.value; }
    }
  }

  method ReadSequence(ba: ByteArray, kinds: seq<Kind>, hostLittle: bool) returns (r: Reading<seq<Item>>)
    requires ba.Valid() && forall k :: k in kinds ==> k.Valid()
    modifies ba`position, ba`cur, ba`at
    ensures ba.Valid()
    ensures (r, ba.View()) == ReadAll(old(ba.View()), kinds, Order(ba.little, hostLittle))
  {
    hide ReadItem, ReadAll, ByteArray.Valid, ByteArray.Shape, ByteArray.CursorAt;
    ghost var f, o := ba.View(), Order(ba.little, hostLittle);
    var xs: seq<Item> := [];
    assert kinds[0..] == kinds;
    NothingBefore(ReadAll(f, kinds, o));
    for n := 0 to |kinds|
      invariant ba.Valid() && ReadAll(f, kinds, o) == Before(xs, ReadAll(ba.View(), kinds[n..], o))
    {
      ReadsOneMore(xs, ba.View(), kinds[n..], o);
      assert kinds[n..][1..] == kinds[n + 1..];
      var i := ReadTyped(ba, kinds[n], hostLittle);
      match i {
        case Thrown => return Thrown;
        case Crashed => return Crashed;
        case Value(x) => xs := xs + [x];
      }
    }
    NothingRead(xs, ba.View(), kinds[|kinds|..], o);
    r := Value(xs);
  }

  lemma NothingBefore(p: (Reading<seq<Item>>, Flat))
    ensures Before([], p) == p
  {
    assert p.0.Value? ==> [] + p.0.value == p.0.value;
  }

  lemma NothingRead(xs: seq<Item>, f: Flat, kinds: seq<Kind>, o: Order)
    requires f.pos <= f.size <= |f.mem| && kinds == []
    ensures Before(xs, ReadAll(f, kinds, o)) == (Value(xs), f)
  {
    assert xs + [] == xs;
  }

  /** A new array takes a sequence of typed writes, is rewound and is read with the same sequence of reads:
      what the program sees of RoundTrip. */
  method WriteThenRead(base: nat, items: seq<Item>, little: bool, hostLittle: bool)
    returns (r: Reading<seq<Item>>, left: nat)
    requires base > 0 && forall i :: i in items ==> i.Valid()
    ensures r == Value(items) && left == 0 <==>
      AllFit(items) && !(EndsWithEmptyText(items) && |AllBytes(items, Order(little, hostLittle))| % base == 0)
  {
    hide WroteAll, ReadAll, AllBytes, ByteArray.Shape, ByteArray.CursorAt;
    var ba := new ByteArray(base);
    ba.SetIsLittleEndian(little);
    ghost var f, o := ba.View(), Order(little, hostLittle);
    WriteAll(ba, items, hostLittle);
    ghost var g := ba.View();
    RoundTrip(base, f, items, g, o);
    var ok := ba.SetPosition(0);
    r := ReadSequence(ba, Kinds(items), hostLittle);
    left := ba.size - ba.position;
  }
}
