/**
 * The encoder of get_install_parameters.py: the per-value branches (lines 101-120)
 * and the loop over the nineteen option slots that builds a CBOR map (lines 73-124).
 * Section numbers below refer to RFC 8949 (CBOR).
 */
module InstallEncoding {
  import opened Wrappers

  /** An element of a Python `bytes` object. */
  type byte = x: int | 0 <= x < 0x100

  /** The length of the literal option list the loop walks (lines 75-95). */
  const NumOptions: nat := 19

  /** What one option slot holds: a flag, an integer, or an already-decoded byte string. */
  datatype Val = B(flag: bool) | U(n: int) | Bs(bytes: seq<byte>)

  /** The values the three-tier rules encode without loss: 16-bit integers and 16-bit lengths. */
  predicate InRange(v: Val) {
    match v
    case B(_) => true
    case U(n) => 0 <= n <= 0xFFFF
    case Bs(bytes) => |bytes| <= 0xFFFF
  }

  /** Every present slot holds a value in range. */
  predicate WellFormed(s: seq<Option<Val>>) {
    forall i :: 0 <= i < |s| && s[i].Some? ==> InRange(s[i].value)
  }

  /** Every element of a Python integer list fits in a byte, so `bytes(...)` (line 125) accepts it. */
  predicate IsByteSeq(xs: seq<int>) {
    forall i :: 0 <= i < |xs| ==> 0 <= xs[i] < 0x100
  }

  /** The CBOR major type (section 3.1) a value is written with: the top three bits of its first byte. */
  function MajorType(v: Val): nat {
    match v
    case U(_) => 0
    case Bs(_) => 2
    case B(_) => 7
  }

  /** `(v & 0xFF00) >> 8` of the source, for a non-negative `v`. */
  function HighByte(v: int): int {
    (v / 0x100) % 0x100
  }

  /** `v & 0x00FF` of the source, for a non-negative `v`. */
  function LowByte(v: int): int {
    v % 0x100
  }

  /**
   * An unsigned integer (major type 0, section 3.1): the value itself up to 23, additional
   * information 24 and one byte up to 255, otherwise additional information 25 and two
   * bytes. The masks keep only the low 16 bits, so an integer above 0xFFFF loses its
   * upper bits (see UIntTruncates).
   */
  function EncUInt(v: int): (r: seq<int>)
    ensures 1 <= |r| <= 3
  {
    if v <= 23 then [v]
    else if v <= 0xFF then [0x18, v]
    else [0x19, HighByte(v), LowByte(v)]
  }

  /**
   * A 16-bit unsigned integer takes one, two or three bytes by the thresholds 23 and 255;
   * the three-byte form holds the value big-endian without loss; every byte is in range
   * and the major type is 0.
   */
  lemma UIntTiers(v: int)
    requires 0 <= v <= 0xFFFF
    ensures IsByteSeq(EncUInt(v)) && EncUInt(v)[0] / 32 == 0
    ensures v <= 23 ==> EncUInt(v) == [v]
    ensures 24 <= v <= 0xFF ==> EncUInt(v) == [0x18, v]
    ensures 0x100 <= v ==> |EncUInt(v)| == 3 && EncUInt(v)[0] == 0x19
    ensures 0x100 <= v ==> EncUInt(v)[1] * 0x100 + EncUInt(v)[2] == v
  {
  }

  /**
   * A byte string (major type 2, section 3.1): a length head chosen by the same three
   * thresholds as EncUInt, then the raw bytes.
   */
  function EncBytes(b: seq<byte>): (r: seq<int>)
    ensures |r| > |b|
  {
    var len := |b|;
    var head :=
      if len <= 23 then [0x40 + len]
      else if len <= 0xFF then [0x58, len]
      else [0x59, HighByte(len), LowByte(len)];
    head + b
  }

  /**
   * A byte string of up to 0xFFFF bytes gets a one-, two- or three-byte length head by the
   * thresholds 23 and 255, the length big-endian in the longest form, followed by the
   * bytes unchanged; every byte is in range and the major type is 2.
   */
  lemma BytesTiers(b: seq<byte>)
    requires |b| <= 0xFFFF
    ensures IsByteSeq(EncBytes(b)) && EncBytes(b)[0] / 32 == 2
    ensures |b| <= 23 ==> EncBytes(b) == [0x40 + |b|] + b
    ensures 24 <= |b| <= 0xFF ==> EncBytes(b) == [0x58, |b|] + b
    ensures 0x100 <= |b| ==> |EncBytes(b)| == 3 + |b| && EncBytes(b)[0] == 0x59
    ensures 0x100 <= |b| ==> EncBytes(b)[1] * 0x100 + EncBytes(b)[2] == |b| && EncBytes(b)[3..] == b
  {
    var r := EncBytes(b);
    var k := |r| - |b|;
    assert r == r[..k] + b;
    assert r[k..] == b;
  }

  /**
   * The byte-string head is the unsigned-integer head of the length with the major type
   * moved from 0 to 2: the thresholds of both rules are the same.
   */
  lemma BytesHeadMirrorsUInt(b: seq<byte>)
    requires |b| <= 0xFFFF
    ensures EncBytes(b) == [EncUInt(|b|)[0] + 0x40] + EncUInt(|b|)[1..] + b
  {
  }

  /**
   * One value (lines 101-120): a flag as a simple value (section 3.3), integers and byte
   * strings as above.
   */
  function EncVal(v: Val): (r: seq<int>)
    ensures 1 <= |r|
  {
    match v
    case B(flag) => if flag then [0xF5] else [0xF4]
    case U(n) => EncUInt(n)
    case Bs(bytes) => EncBytes(bytes)
  }

  /**
   * Every value in range encodes to bytes whose first byte carries the value's major
   * type; `true` and `false` are the one-byte simple values 21 and 20 of major type 7.
   */
  lemma ValEncoding(v: Val)
    requires InRange(v)
    ensures IsByteSeq(EncVal(v)) && EncVal(v)[0] / 32 == MajorType(v)
    ensures v.B? ==> |EncVal(v)| == 1 && EncVal(v)[0] % 32 == (if v.flag then 21 else 20)
  {
    match v
    case B(_) =>
    case U(n) => UIntTiers(n);
    case Bs(bytes) => BytesTiers(bytes);
  }

  /** The number of present slots: `num_options_set` once the loop is done (line 99). */
  function Count(s: seq<Option<Val>>): (k: nat)
    ensures k <= |s|
  {
    if s == [] then 0
    else (if s[0].Some? then 1 else 0) + Count(s[1..])
  }

  /** No slot is counted exactly when every slot is absent. */
  lemma {:induction false} CountZero(s: seq<Option<Val>>)
    ensures Count(s) == 0 <==> forall i :: 0 <= i < |s| ==> s[i].None?
  {
    if s != [] {
      CountZero(s[1..]);
      assert forall i :: 1 <= i < |s| ==> s[i] == s[1..][i - 1];
    }
  }

  /** What one slot adds in the loop body (line 122): nothing, or its key and its value. */
  function SlotBytes(key: nat, x: Option<Val>): seq<int> {
    if x.Some? then [key] + EncVal(x.value) else []
  }

  /**
   * The key/value pairs of the slots `s`, the first of which has key `base` (line 122): an
   * absent slot contributes nothing, a present one its key byte followed by its value.
   */
  function Pairs(s: seq<Option<Val>>, base: nat): seq<int> {
    if s == [] then [] else SlotBytes(base, s[0]) + Pairs(s[1..], base + 1)
  }

  /** Every present slot adds at least two bytes, its key and a head; absent slots add none. */
  lemma {:induction false} PairsLength(s: seq<Option<Val>>, base: nat)
    ensures |Pairs(s, base)| >= 2 * Count(s)
    ensures Pairs(s, base) == [] <==> Count(s) == 0
  {
    if s != [] {
      PairsLength(s[1..], base + 1);
    }
  }

  /** With every value in range and every key below 256, the pairs are bytes. */
  lemma {:induction false} PairsAreBytes(s: seq<Option<Val>>, base: nat)
    requires WellFormed(s) && base + |s| <= 0x100
    ensures IsByteSeq(Pairs(s, base))
  {
    if s != [] {
      PairsAreBytes(s[1..], base + 1);
      if s[0].Some? {
        ValEncoding(s[0].value);
      }
    }
  }

  /** The whole parameter buffer: the map head `0xA0 + n` (line 124) and then the pairs. */
  function EncMap(s: seq<Option<Val>>): (r: seq<int>)
    requires |s| == NumOptions
    ensures |r| >= 1 && 0xA0 <= r[0] <= 0xA0 + NumOptions && r[0] / 32 == 5
  {
    [0xA0 + Count(s)] + Pairs(s, 0)
  }

  /**
   * With every value in range the whole buffer is bytes, so the conversion at line 125
   * cannot fail.
   */
  lemma MapIsBytes(s: seq<Option<Val>>)
    requires |s| == NumOptions && WellFormed(s)
    ensures IsByteSeq(EncMap(s))
  {
    PairsAreBytes(s, 0);
  }

  /** With every slot absent the buffer is the lone empty-map head, and only then. */
  lemma EmptyMap(s: seq<Option<Val>>)
    requires |s| == NumOptions
    ensures EncMap(s) == [0xA0] <==> forall i :: 0 <= i < |s| ==> s[i].None?
  {
    CountZero(s);
    PairsLength(s, 0);
  }

  /** The slots whose value is present. */
  function PresentSlots(s: seq<Option<Val>>): set<nat> {
    set i: nat | i < |s| && s[i].Some?
  }

  /**
   * Appending a slot (one loop iteration, lines 96-122): an absent slot adds no bytes and
   * no count; a present slot adds one to the count and its key, the slot's position, then
   * its value.
   */
  lemma {:induction false} AppendSlot(s: seq<Option<Val>>, base: nat, x: Option<Val>)
    ensures Count(s + [x]) == Count(s) + (if x.Some? then 1 else 0)
    ensures Pairs(s + [x], base) == Pairs(s, base) + SlotBytes(base + |s|, x)
  {
    AppendCount(s, x);
    AppendPairs(s, base, x);
  }

  lemma {:induction false} AppendCount(s: seq<Option<Val>>, x: Option<Val>)
    ensures Count(s + [x]) == Count(s) + (if x.Some? then 1 else 0)
  {
    if s == [] {
      assert s + [x] == [x];
      assert [x][1..] == [];
    } else {
      assert (s + [x])[1..] == s[1..] + [x];
      AppendCount(s[1..], x);
    }
  }

  lemma ConcatAssoc(a: seq<int>, b: seq<int>, c: seq<int>)
    ensures a + (b + c) == (a + b) + c
  {
  }

  lemma {:induction false} AppendPairs(s: seq<Option<Val>>, base: nat, x: Option<Val>)
    ensures Pairs(s + [x], base) == Pairs(s, base) + SlotBytes(base + |s|, x)
  {
    if s == [] {
      assert s + [x] == [x];
      assert [x][1..] == [];
    } else {
      var t := s + [x];
      assert t[0] == s[0] && t[1..] == s[1..] + [x];
      var head, rest, last := SlotBytes(base, s[0]), Pairs(s[1..], base + 1), SlotBytes(base + |s|, x);
      calc {
        Pairs(t, base);
        SlotBytes(base, t[0]) + Pairs(t[1..], base + 1);
        head + Pairs(s[1..] + [x], base + 1);
        { AppendPairs(s[1..], base + 1, x); }
        head + (rest + last);
        { ConcatAssoc(head, rest, last); }
        (head + rest) + last;
        Pairs(s, base) + last;
      }
    }
  }

  /** Count agrees with the set of present slots. */
  lemma {:induction false} CountIsPresentSlots(s: seq<Option<Val>>)
    ensures Count(s) == |PresentSlots(s)|
  {
    if s == [] {
      assert PresentSlots(s) == {};
    } else {
      var init := s[..|s| - 1];
      var last := s[|s| - 1];
      assert s == init + [last];
      CountIsPresentSlots(init);
      AppendCount(init, last);
      if last.Some? {
        assert PresentSlots(s) == PresentSlots(init) + {|s| - 1};
      } else {
        assert PresentSlots(s) == PresentSlots(init);
      }
    }
  }

  /** A run of present slots from `lo` up to `hi` counts at least its length. */
  lemma {:induction false} CountAtLeast(s: seq<Option<Val>>, lo: nat, hi: nat)
    requires lo <= hi <= |s|
    requires forall i :: lo <= i < hi ==> s[i].Some?
    ensures Count(s) >= hi - lo
    decreases |s|
  {
    if lo < hi {
      if lo > 0 {
        CountAtLeast(s[1..], lo - 1, hi - 1);
      } else {
        CountAtLeast(s[1..], 0, hi - 1);
      }
    }
  }

  /**
   * The map head counts exactly the present slots, and with nineteen slots it stays
   * within the one-byte map heads 0xA0..0xB3.
   */
  lemma MapHead(s: seq<Option<Val>>)
    requires |s| == NumOptions
    ensures EncMap(s)[0] == 0xA0 + |PresentSlots(s)|
    ensures 0xA0 <= EncMap(s)[0] <= 0xB3
  {
    CountIsPresentSlots(s);
  }

  /**
   * Keys are emitted in canonical order: the first byte of the pairs is the key of the
   * first present slot, i.e. the smallest present position.
   */
  lemma {:induction false} PairsHead(s: seq<Option<Val>>, base: nat)
    requires Pairs(s, base) != []
    ensures base <= Pairs(s, base)[0] < base + |s|
    ensures s[Pairs(s, base)[0] - base].Some?
    ensures forall j :: 0 <= j < Pairs(s, base)[0] - base ==> s[j].None?
  {
    if s[0].None? {
      PairsHead(s[1..], base + 1);
    }
  }

  /**
   * Replacing a present slot's value by one with the same encoding changes neither the
   * pairs nor the count.
   */
  lemma {:induction false} ReplaceAlike(s: seq<Option<Val>>, k: nat, v: Val, base: nat)
    requires k < |s| && s[k].Some? && EncVal(s[k].value) == EncVal(v)
    ensures Count(s[k := Some(v)]) == Count(s)
    ensures Pairs(s[k := Some(v)], base) == Pairs(s, base)
    decreases k
  {
    var t := s[k := Some(v)];
    if k == 0 {
      assert t[1..] == s[1..];
    } else {
      assert t[1..] == s[1..][k - 1 := Some(v)];
      ReplaceAlike(s[1..], k - 1, v, base + 1);
    }
  }

  /** The same, for the whole buffer. */
  lemma MapReplaceAlike(s: seq<Option<Val>>, k: nat, v: Val)
    requires |s| == NumOptions && k < |s| && s[k].Some? && EncVal(s[k].value) == EncVal(v)
    ensures EncMap(s[k := Some(v)]) == EncMap(s)
  {
    ReplaceAlike(s, k, v, 0);
  }

  lemma PrefixStep(s: seq<Option<Val>>, i: nat)
    requires i < |s|
    ensures s[..i + 1] == s[..i] + [s[i]]
  {
  }

  /** One more slot of a prefix, in the terms of AppendSlot. */
  lemma NextPrefix(s: seq<Option<Val>>, i: nat)
    requires i < |s|
    ensures Count(s[..i + 1]) == Count(s[..i]) + (if s[i].Some? then 1 else 0)
    ensures Pairs(s[..i + 1], 0) == Pairs(s[..i], 0) + SlotBytes(i, s[i])
  {
    PrefixStep(s, i);
    AppendSlot(s[..i], 0, s[i]);
  }

  /**
   * The loop of lines 73-124: walk the slots in canonical order, count the present ones
   * and append key and value for each, then put the map head in front.
   */
  method Encode(slots: seq<Option<Val>>) returns (out: seq<int>)
    requires |slots| == NumOptions
    ensures out == EncMap(slots)
  {
    var numOptionsSet := 0;
    var installParamBytes: seq<int> := [];
    var optionNumber := 0;
    while optionNumber < |slots|
      invariant 0 <= optionNumber <= |slots|
      invariant numOptionsSet == Count(slots[..optionNumber])
      invariant installParamBytes == Pairs(slots[..optionNumber], 0)
    {
      var val := slots[optionNumber];
      NextPrefix(slots, optionNumber);
      if val.Some? {
        numOptionsSet := numOptionsSet + 1;
        var bytesForOption := EncVal(val.value);
        installParamBytes := installParamBytes + ([optionNumber] + bytesForOption);
      }
      optionNumber := optionNumber + 1;
    }
    assert slots[..optionNumber] == slots;
    out := [0xA0 + numOptionsSet] + installParamBytes;
  }
}
