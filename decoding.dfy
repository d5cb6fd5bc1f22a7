/**
 * A reader for the parameter buffer: the inverse the receiving applet applies to it.
 * It accepts only the shortest head for each integer and length (the preferred
 * serialization of section 4.2.1 of RFC 8949) and only keys 0..18 in increasing order,
 * so that it reads back exactly what the encoder writes and nothing else. It reads the
 * encoder's integer list as it is, and refuses any element that is not a byte.
 */
module InstallDecoding {
  import opened Wrappers
  import opened InstallEncoding

  /** The 16-bit argument of a three-byte head, high byte first. */
  function BigEndian(hi: int, lo: int): int {
    hi * 0x100 + lo
  }

  /** `x` is a byte no smaller than `min`. */
  predicate ByteFrom(x: int, min: int) {
    min <= x < 0x100
  }

  /** The string value whose `len` bytes follow a head of `head` bytes at the front of `b`. */
  function StringBody(b: seq<int>, head: nat, len: int): (r: Option<(Val, nat)>)
    requires head <= |b|
    ensures r.Some? ==> 0 <= len && r.value.1 == head + len <= |b|
  {
    if 0 <= len && head + len <= |b| && IsByteSeq(b[head..head + len]) then
      Some((Bs(b[head..head + len]), head + len))
    else None
  }

  /** Reads one value from the front of `b`, returning it with the number of bytes it took. */
  function DecodeVal(b: seq<int>): (r: Option<(Val, nat)>)
    ensures r.Some? ==> 1 <= r.value.1 <= |b|
  {
    if |b| == 0 then None
    else if b[0] == 0xF4 then Some((B(false), 1))
    else if b[0] == 0xF5 then Some((B(true), 1))
    else if 0 <= b[0] <= 23 then Some((U(b[0]), 1))
    else if b[0] == 0x18 then
      if |b| >= 2 && ByteFrom(b[1], 24) then Some((U(b[1]), 2)) else None
    else if b[0] == 0x19 then
      if |b| >= 3 && ByteFrom(b[1], 1) && ByteFrom(b[2], 0) then Some((U(BigEndian(b[1], b[2])), 3)) else None
    else if 0x40 <= b[0] <= 0x57 then StringBody(b, 1, b[0] - 0x40)
    else if b[0] == 0x58 then
      if |b| >= 2 && ByteFrom(b[1], 24) then StringBody(b, 2, b[1]) else None
    else if b[0] == 0x59 then
      if |b| >= 3 && ByteFrom(b[1], 1) && ByteFrom(b[2], 0) then StringBody(b, 3, BigEndian(b[1], b[2])) else None
    else None
  }

  /**
   * Reads `n` pairs into the slots `next`..18: a slot whose key comes next in `b` gets the
   * value after it, any other slot stays absent, and nothing may be left over.
   */
  function DecodeEntries(b: seq<int>, n: nat, next: nat): (r: Option<seq<Option<Val>>>)
    requires next <= NumOptions
    ensures r.Some? ==> |r.value| == NumOptions - next
    decreases NumOptions - next
  {
    if next == NumOptions then
      if n == 0 && b == [] then Some([]) else None
    else if n > 0 && |b| > 0 && b[0] == next then
      var value := DecodeVal(b[1..]);
      if value.None? then None
      else
        var rest := DecodeEntries(b[1 + value.value.1..], n - 1, next + 1);
        if rest.None? then None else Some([Some(value.value.0)] + rest.value)
    else
      var rest := DecodeEntries(b, n, next + 1);
      if rest.None? then None else Some([None] + rest.value)
  }

  /** Reads a whole buffer: a one-byte map head with the pair count, then the pairs. */
  function DecodeMap(b: seq<int>): (r: Option<seq<Option<Val>>>)
    ensures r.Some? ==> |r.value| == NumOptions
  {
    if |b| == 0 || b[0] < 0xA0 || b[0] > 0xB7 then None
    else DecodeEntries(b[1..], b[0] - 0xA0, 0)
  }

  /** The two bytes of a three-byte head and the 16-bit number they stand for. */
  lemma JoinBytes(n: int)
    requires 0x100 <= n <= 0xFFFF
    ensures ByteFrom(HighByte(n), 1) && ByteFrom(LowByte(n), 0)
    ensures BigEndian(HighByte(n), LowByte(n)) == n
  {
  }

  lemma SplitBytes(hi: int, lo: int)
    requires ByteFrom(hi, 1) && ByteFrom(lo, 0)
    ensures 0x100 <= BigEndian(hi, lo) <= 0xFFFF
    ensures HighByte(BigEndian(hi, lo)) == hi && LowByte(BigEndian(hi, lo)) == lo
  {
  }

  /** Where a head, a body and what follows them lie in their concatenation. */
  lemma Slices(h: seq<int>, x: seq<int>, rest: seq<int>)
    ensures (h + x + rest)[..|h|] == h
    ensures (h + x + rest)[|h|..|h| + |x|] == x
    ensures (h + x + rest)[|h| + |x|..] == rest
  {
  }

  /** The head EncBytes puts before a string of `len` bytes. */
  function StringHead(len: nat): seq<int> {
    if len <= 23 then [0x40 + len]
    else if len <= 0xFF then [0x58, len]
    else [0x59, HighByte(len), LowByte(len)]
  }

  lemma EncBytesSplit(x: seq<byte>)
    ensures EncBytes(x) == StringHead(|x|) + x
  {
  }

  /** Every value in range is read back from its encoding, whatever follows it. */
  lemma EncodedValReads(v: Val, rest: seq<int>)
    requires InRange(v)
    ensures DecodeVal(EncVal(v) + rest) == Some((v, |EncVal(v)|))
  {
    match v
    case B(_) =>
    case U(n) => EncodedUIntReads(n, rest);
    case Bs(x) => EncodedStringReads(x, rest);
  }

  lemma EncodedUIntReads(n: int, rest: seq<int>)
    requires 0 <= n <= 0xFFFF
    ensures DecodeVal(EncUInt(n) + rest) == Some((U(n), |EncUInt(n)|))
  {
    if n > 0xFF {
      JoinBytes(n);
      assert EncUInt(n) + rest == [0x19, HighByte(n), LowByte(n)] + rest;
      LongUIntReads(HighByte(n), LowByte(n), rest);
    }
  }

  /** A three-byte integer head is read as its 16-bit argument, high byte first. */
  lemma LongUIntReads(hi: int, lo: int, rest: seq<int>)
    requires ByteFrom(hi, 1) && ByteFrom(lo, 0)
    ensures DecodeVal([0x19, hi, lo] + rest) == Some((U(BigEndian(hi, lo)), 3))
  {
  }

  lemma EncodedStringReads(x: seq<byte>, rest: seq<int>)
    requires |x| <= 0xFFFF
    ensures DecodeVal(EncBytes(x) + rest) == Some((Bs(x), |EncBytes(x)|))
  {
    var h := StringHead(|x|);
    EncBytesSplit(x);
    assert EncBytes(x) + rest == h + x + rest;
    if |x| <= 0xFF {
      StringAfterHead(h, x, rest);
    } else {
      JoinBytes(|x|);
      LongStringReads(HighByte(|x|), LowByte(|x|), x, rest);
    }
  }

  /** A string after a one- or two-byte head is read back whole. */
  lemma StringAfterHead(h: seq<int>, x: seq<byte>, rest: seq<int>)
    requires |x| <= 0xFF && h == StringHead(|x|)
    ensures DecodeVal(h + x + rest) == Some((Bs(x), |h| + |x|))
  {
    Slices(h, x, rest);
  }

  /** A string after a three-byte head, its length given high byte first, is read back whole. */
  lemma LongStringReads(hi: int, lo: int, x: seq<byte>, rest: seq<int>)
    requires ByteFrom(hi, 1) && ByteFrom(lo, 0) && BigEndian(hi, lo) == |x|
    ensures DecodeVal([0x59, hi, lo] + x + rest) == Some((Bs(x), 3 + |x|))
  {
    Slices([0x59, hi, lo], x, rest);
  }

  /** Whatever the reader accepts as one value is a value in range followed by its encoding. */
  lemma ReadIsEncoded(b: seq<int>)
    requires DecodeVal(b).Some?
    ensures InRange(DecodeVal(b).value.0)
    ensures b[..DecodeVal(b).value.1] == EncVal(DecodeVal(b).value.0)
  {
    if b[0] == 0x19 {
      SplitBytes(b[1], b[2]);
    } else if 0x40 <= b[0] <= 0x57 {
      ReadString(b, 1, b[0] - 0x40);
    } else if b[0] == 0x58 {
      ReadString(b, 2, b[1]);
    } else if b[0] == 0x59 {
      SplitBytes(b[1], b[2]);
      ReadString(b, 3, BigEndian(b[1], b[2]));
    }
  }

  /** A string the reader takes after a head of `hd` bytes that is the head EncBytes writes. */
  lemma ReadString(b: seq<int>, hd: nat, len: nat)
    requires hd <= |b| && StringBody(b, hd, len).Some?
    requires b[..hd] == StringHead(len)
    ensures b[..hd + len] == EncVal(StringBody(b, hd, len).value.0)
  {
    var x := b[hd..hd + len];
    EncBytesSplit(x);
    assert b[..hd + len] == b[..hd] + x;
  }

  /** The pairs of well-formed slots `base`..18 read back as those slots. */
  lemma {:induction false} PairsRead(s: seq<Option<Val>>, base: nat)
    requires base + |s| == NumOptions && WellFormed(s)
    ensures DecodeEntries(Pairs(s, base), Count(s), base) == Some(s)
    decreases |s|
  {
    if s == [] {
      assert Pairs(s, base) == [] && Count(s) == 0;
    } else {
      WellFormedTail(s);
      PairsRead(s[1..], base + 1);
      if s[0].None? {
        SkipAbsent(s, base);
      } else {
        ReadPresent(s, base);
      }
    }
  }

  /** One step of the reader when the next key is `next`. */
  lemma EntriesKeyed(b: seq<int>, n: nat, next: nat, v: Val, used: nat, rest: seq<Option<Val>>)
    requires next < NumOptions && n > 0 && |b| > 0 && b[0] == next
    requires DecodeVal(b[1..]) == Some((v, used))
    requires DecodeEntries(b[1 + used..], n - 1, next + 1) == Some(rest)
    ensures DecodeEntries(b, n, next) == Some([Some(v)] + rest)
  {
    var value := DecodeVal(b[1..]);
    assert value.value.0 == v && value.value.1 == used;
  }

  /** One step of the reader when the next key is not `next`. */
  lemma EntriesUnkeyed(b: seq<int>, n: nat, next: nat, rest: seq<Option<Val>>)
    requires next < NumOptions && !(n > 0 && |b| > 0 && b[0] == next)
    requires DecodeEntries(b, n, next + 1) == Some(rest)
    ensures DecodeEntries(b, n, next) == Some([None] + rest)
  {
  }

  /** The slots after the first of a well-formed list are well formed, and so is the first. */
  lemma WellFormedTail(s: seq<Option<Val>>)
    requires WellFormed(s) && s != []
    ensures WellFormed(s[1..]) && (s[0].Some? ==> InRange(s[0].value))
  {
    assert forall i :: 0 <= i < |s| - 1 ==> s[1..][i] == s[i + 1];
  }

  /** A slot in range put in front of well-formed slots keeps them well formed. */
  lemma WellFormedCons(x: Option<Val>, rest: seq<Option<Val>>)
    requires WellFormed(rest) && (x.Some? ==> InRange(x.value))
    ensures WellFormed([x] + rest)
  {
    assert forall i :: 1 <= i < |rest| + 1 ==> ([x] + rest)[i] == rest[i - 1];
  }

  /** An absent first slot: the reader skips its key and reads on. */
  lemma SkipAbsent(s: seq<Option<Val>>, base: nat)
    requires base + |s| == NumOptions && s != [] && s[0].None?
    requires DecodeEntries(Pairs(s[1..], base + 1), Count(s[1..]), base + 1) == Some(s[1..])
    ensures DecodeEntries(Pairs(s, base), Count(s), base) == Some(s)
  {
    var q := Pairs(s[1..], base + 1);
    assert Pairs(s, base) == q && Count(s) == Count(s[1..]);
    if q != [] {
      PairsHead(s[1..], base + 1);
    }
    EntriesUnkeyed(q, Count(s), base, s[1..]);
    assert [None] + s[1..] == s;
  }

  /** A present first slot: the reader takes its key, then its value, and reads on. */
  lemma ReadPresent(s: seq<Option<Val>>, base: nat)
    requires base + |s| == NumOptions && s != [] && s[0].Some? && InRange(s[0].value)
    requires DecodeEntries(Pairs(s[1..], base + 1), Count(s[1..]), base + 1) == Some(s[1..])
    ensures DecodeEntries(Pairs(s, base), Count(s), base) == Some(s)
  {
    var v := s[0].value;
    var e, q := EncVal(v), Pairs(s[1..], base + 1);
    assert Pairs(s, base) == [base] + e + q && Count(s) == Count(s[1..]) + 1;
    KeyedPair(base, v, q);
    EntriesKeyed([base] + e + q, Count(s), base, v, |e|, s[1..]);
    assert [Some(v)] + s[1..] == s;
  }

  /** A key, a value in range and what follows: the reader finds the key and then the value. */
  lemma KeyedPair(key: int, v: Val, q: seq<int>)
    requires InRange(v)
    ensures ([key] + EncVal(v) + q)[0] == key
    ensures DecodeVal(([key] + EncVal(v) + q)[1..]) == Some((v, |EncVal(v)|))
    ensures ([key] + EncVal(v) + q)[1 + |EncVal(v)|..] == q
  {
    var e := EncVal(v);
    Slices([key], e + q, []);
    assert ([key] + e + q)[1..] == e + q;
    EncodedValReads(v, q);
    Slices(e, q, []);
  }

  /** Whatever slots the reader returns are well formed and their pairs are the bytes it read. */
  lemma {:induction false} ReadPairs(b: seq<int>, n: nat, next: nat, t: seq<Option<Val>>)
    requires next <= NumOptions
    requires DecodeEntries(b, n, next) == Some(t)
    ensures ReadBack(b, n, next, t)
    decreases NumOptions - next
  {
    if next == NumOptions {
      EndStep(b, n, t);
    } else {
      var b', n', rest := Step(b, n, next, t);
      ReadPairs(b', n', next + 1, rest);
    }
  }

  /**
   * One slot of the reader: what it read on from and the slots it read there, and that
   * those slots being right makes the whole answer right.
   */
  lemma Step(b: seq<int>, n: nat, next: nat, t: seq<Option<Val>>) returns (b': seq<int>, n': nat, rest: seq<Option<Val>>)
    requires next < NumOptions && DecodeEntries(b, n, next) == Some(t)
    ensures DecodeEntries(b', n', next + 1) == Some(rest)
    ensures ReadBack(b', n', next + 1, rest) ==> ReadBack(b, n, next, t)
  {
    if n > 0 && |b| > 0 && b[0] == next {
      var used;
      used, rest := KeyedStep(b, n, next, t);
      b', n' := b[1 + used..], n - 1;
    } else {
      rest := UnkeyedStep(b, n, next, t);
      b', n' := b, n;
    }
  }

  /** The slots `t`, the first with key `next`, are well formed, `n` are present, and their pairs are `b`. */
  predicate ReadBack(b: seq<int>, n: nat, next: nat, t: seq<Option<Val>>) {
    WellFormed(t) && Count(t) == n && Pairs(t, next) == b
  }

  /** The reader is past the last key: nothing is left to read and no slot remains. */
  lemma EndStep(b: seq<int>, n: nat, t: seq<Option<Val>>)
    requires DecodeEntries(b, n, NumOptions) == Some(t)
    ensures ReadBack(b, n, NumOptions, t)
  {
    assert t == [] && n == 0 && b == [];
  }

  /**
   * The reader found the key `next`: the bytes it read on from, the slots it read there,
   * and that those slots being right makes the whole answer right.
   */
  lemma KeyedStep(b: seq<int>, n: nat, next: nat, t: seq<Option<Val>>) returns (used: nat, rest: seq<Option<Val>>)
    requires next < NumOptions && n > 0 && |b| > 0 && b[0] == next
    requires DecodeEntries(b, n, next) == Some(t)
    ensures 1 + used <= |b| && DecodeEntries(b[1 + used..], n - 1, next + 1) == Some(rest)
    ensures ReadBack(b[1 + used..], n - 1, next + 1, rest) ==> ReadBack(b, n, next, t)
  {
    var r := DecodeVal(b[1..]).value;
    var v := r.0;
    used := r.1;
    rest := DecodeEntries(b[1 + used..], n - 1, next + 1).value;
    if ReadBack(b[1 + used..], n - 1, next + 1, rest) {
      ReadKeyed(b, next, v, used, t, rest);
    }
  }

  /** The reader did not find the key `next`: the same, with the slot left absent. */
  lemma UnkeyedStep(b: seq<int>, n: nat, next: nat, t: seq<Option<Val>>) returns (rest: seq<Option<Val>>)
    requires next < NumOptions && !(n > 0 && |b| > 0 && b[0] == next)
    requires DecodeEntries(b, n, next) == Some(t)
    ensures DecodeEntries(b, n, next + 1) == Some(rest)
    ensures ReadBack(b, n, next + 1, rest) ==> ReadBack(b, n, next, t)
  {
    rest := DecodeEntries(b, n, next + 1).value;
    if ReadBack(b, n, next + 1, rest) {
      ReadUnkeyed(b, next, t, rest);
    }
  }

  /** The reader found the key `next`: the slot holds the value after it. */
  lemma ReadKeyed(b: seq<int>, next: nat, v: Val, used: nat, t: seq<Option<Val>>, rest: seq<Option<Val>>)
    requires |b| > 0 && b[0] == next && 1 + used <= |b|
    requires DecodeVal(b[1..]) == Some((v, used))
    requires t == [Some(v)] + rest
    requires WellFormed(rest) && Pairs(rest, next + 1) == b[1 + used..]
    ensures WellFormed(t) && Count(t) == Count(rest) + 1 && Pairs(t, next) == b
  {
    ReadIsEncoded(b[1..]);
    assert b[1..][..used] == EncVal(v);
    WellFormedCons(Some(v), rest);
    assert t[0] == Some(v) && t[1..] == rest;
    assert Pairs(t, next) == [next] + EncVal(v) + Pairs(rest, next + 1);
    KeySplit(b, used);
  }

  /** A buffer cut after its first byte and after the `used` bytes that follow it. */
  lemma KeySplit(b: seq<int>, used: nat)
    requires 1 + used <= |b|
    ensures b == [b[0]] + b[1..][..used] + b[1 + used..]
  {
    assert b == b[..1] + b[1..1 + used] + b[1 + used..];
  }

  /** The reader did not find the key `next`: the slot stays absent. */
  lemma ReadUnkeyed(b: seq<int>, next: nat, t: seq<Option<Val>>, rest: seq<Option<Val>>)
    requires t == [None] + rest
    requires WellFormed(rest) && Pairs(rest, next + 1) == b
    ensures WellFormed(t) && Count(t) == Count(rest) && Pairs(t, next) == b
  {
    WellFormedCons(None, rest);
    assert t[0] == None && t[1..] == rest;
  }

  /**
   * Round trip: every well-formed slot list is read back from its encoding, so nothing
   * present, absent or held in a slot is lost.
   */
  lemma MapRoundTrip(s: seq<Option<Val>>)
    requires |s| == NumOptions && WellFormed(s)
    ensures DecodeMap(EncMap(s)) == Some(s)
  {
    PairsRead(s, 0);
    assert EncMap(s)[1..] == Pairs(s, 0);
  }

  /** Conversely, every buffer the reader accepts is the encoding of the well-formed slots it returns. */
  lemma ReadMapIsEncoded(b: seq<int>, s: seq<Option<Val>>)
    requires DecodeMap(b) == Some(s)
    ensures |s| == NumOptions && WellFormed(s) && EncMap(s) == b
  {
    assert DecodeEntries(b[1..], b[0] - 0xA0, 0) == Some(s);
    ReadPairs(b[1..], b[0] - 0xA0, 0, s);
    assert EncMap(s) == [b[0]] + b[1..];
  }

  /** Distinct well-formed slot lists have distinct encodings. */
  lemma EncMapInjective(s: seq<Option<Val>>, t: seq<Option<Val>>)
    requires |s| == NumOptions && WellFormed(s)
    requires |t| == NumOptions && WellFormed(t)
    requires EncMap(s) == EncMap(t)
    ensures s == t
  {
    MapRoundTrip(s);
    MapRoundTrip(t);
  }
}
