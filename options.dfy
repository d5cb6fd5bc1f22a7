/**
 * The settings of get_install_parameters.py once parsed (lines 9-55), the checks run on
 * them (lines 57-71), the fixed option list that turns them into slots (lines 75-96) and
 * the whole run up to the byte list handed to the hex printer (lines 57-124).
 */
module InstallParameters {
  import opened Wrappers
  import opened InstallEncoding
  import opened InstallDecoding

  /**
   * The parsed arguments. A flag is unset (`None`) unless given; the integer settings of
   * lines 22-37 always hold a value, their default when not given; the attestation key is
   * taken already decoded from base64.
   */
  datatype Args = Args(
    enableAttestation: Option<bool>,
    highSecurity: Option<bool>,
    forceAlwaysUv: Option<bool>,
    highSecurityRks: Option<bool>,
    protectAgainstReset: Option<bool>,
    kdfIterations: int,
    maxCredBlobLen: int,
    largeBlobStoreSize: int,
    maxRkRpLength: int,
    maxRamScratch: int,
    bufferMem: int,
    flashScratch: int,
    doNotStorePinLength: Option<bool>,
    cachePinToken: Option<bool>,
    certificationLevel: Option<int>,
    attestationPrivateKey: Option<seq<byte>>,
    multipleWritesPerPinToken: Option<bool>,
    disablePinSet: Option<bool>,
    disableReset: Option<bool>)

  /** The kind of value each slot holds. */
  datatype Kind = Flag | Integer | Bytes

  function KindOf(v: Val): Kind {
    match v
    case B(_) => Flag
    case U(_) => Integer
    case Bs(_) => Bytes
  }

  /** The kind of each entry of the option list, by position. */
  const Kinds: seq<Kind> := [
    Flag, Flag, Flag, Flag, Flag,
    Integer, Integer, Integer, Integer, Integer, Integer, Integer,
    Flag, Flag, Integer, Bytes, Flag, Flag, Flag]

  function FlagSlot(o: Option<bool>): Option<Val> {
    match o
    case None => None
    case Some(b) => Some(B(b))
  }

  function IntSlot(o: Option<int>): Option<Val> {
    match o
    case None => None
    case Some(n) => Some(U(n))
  }

  function BytesSlot(o: Option<seq<byte>>): Option<Val> {
    match o
    case None => None
    case Some(b) => Some(Bs(b))
  }

  /**
   * The option list of lines 75-95, each name looked up in the arguments (line 96): the
   * position of a setting is its key. Every slot holds the kind its setting is parsed
   * as, and the seven integer settings with defaults are always present.
   */
  function Slots(a: Args): (s: seq<Option<Val>>)
    ensures |s| == NumOptions
    ensures forall i :: 0 <= i < |s| && s[i].Some? ==> KindOf(s[i].value) == Kinds[i]
    ensures forall i :: 5 <= i < 12 ==> s[i].Some?
  {
    [ FlagSlot(a.enableAttestation),
      FlagSlot(a.highSecurity),
      FlagSlot(a.forceAlwaysUv),
      FlagSlot(a.highSecurityRks),
      FlagSlot(a.protectAgainstReset),
      Some(U(a.kdfIterations)),
      Some(U(a.maxCredBlobLen)),
      Some(U(a.largeBlobStoreSize)),
      Some(U(a.maxRkRpLength)),
      Some(U(a.maxRamScratch)),
      Some(U(a.bufferMem)),
      Some(U(a.flashScratch)),
      FlagSlot(a.doNotStorePinLength),
      FlagSlot(a.cachePinToken),
      IntSlot(a.certificationLevel),
      BytesSlot(a.attestationPrivateKey),
      FlagSlot(a.multipleWritesPerPinToken),
      FlagSlot(a.disablePinSet),
      FlagSlot(a.disableReset) ]
  }

  /** Every setting has a slot of its own: distinct arguments give distinct slot lists. */
  lemma SlotsInjective(a1: Args, a2: Args)
    requires Slots(a1) == Slots(a2)
    ensures a1 == a2
  {
    var s1, s2 := Slots(a1), Slots(a2);
    assert s1[0] == s2[0] && s1[1] == s2[1] && s1[2] == s2[2] && s1[3] == s2[3];
    assert s1[4] == s2[4] && s1[5] == s2[5] && s1[6] == s2[6] && s1[7] == s2[7];
    assert s1[8] == s2[8] && s1[9] == s2[9] && s1[10] == s2[10] && s1[11] == s2[11];
    assert s1[12] == s2[12] && s1[13] == s2[13] && s1[14] == s2[14] && s1[15] == s2[15];
    assert s1[16] == s2[16] && s1[17] == s2[17] && s1[18] == s2[18];
  }

  /** Why a configuration is refused. */
  datatype ConfigError =
    | BufferMemTooSmall
    | LargeBlobStoreSizeOutOfRange
    | CredBlobLenOutOfRange
    | RkRpLengthOutOfRange
    | NotEncodable(option: nat)

  /**
   * The checks of lines 57-67, in order, the first failing one reporting; then a given
   * attestation key turns attestation on (lines 69-70). Nothing else changes.
   */
  function Validate(a: Args): (r: Result<Args, ConfigError>)
    ensures r.Ok? <==> a.bufferMem >= 1024 && 1024 <= a.largeBlobStoreSize <= 2048
                       && 32 <= a.maxCredBlobLen <= 255 && 32 <= a.maxRkRpLength <= 255
    ensures a.bufferMem < 1024 ==> r == Err(BufferMemTooSmall)
    ensures a.bufferMem >= 1024 && !(1024 <= a.largeBlobStoreSize <= 2048) ==> r == Err(LargeBlobStoreSizeOutOfRange)
    ensures a.bufferMem >= 1024 && 1024 <= a.largeBlobStoreSize <= 2048 && !(32 <= a.maxCredBlobLen <= 255)
            ==> r == Err(CredBlobLenOutOfRange)
    ensures a.bufferMem >= 1024 && 1024 <= a.largeBlobStoreSize <= 2048 && 32 <= a.maxCredBlobLen <= 255
            && !(32 <= a.maxRkRpLength <= 255)
            ==> r == Err(RkRpLengthOutOfRange)
    ensures r.Ok? ==> Slots(r.value)[1..] == Slots(a)[1..]
    ensures r.Ok? ==> Slots(r.value)[0] == if a.attestationPrivateKey.Some? then Some(B(true)) else Slots(a)[0]
  {
    if a.bufferMem < 1024 then Err(BufferMemTooSmall)
    else if a.largeBlobStoreSize < 1024 || a.largeBlobStoreSize > 2048 then Err(LargeBlobStoreSizeOutOfRange)
    else if a.maxCredBlobLen < 32 || a.maxCredBlobLen > 255 then Err(CredBlobLenOutOfRange)
    else if a.maxRkRpLength < 32 || a.maxRkRpLength > 255 then Err(RkRpLengthOutOfRange)
    else if a.attestationPrivateKey.Some? then Ok(a.(enableAttestation := Some(true)))
    else Ok(a)
  }

  /** The first slot from `from` on whose value the encoder cannot hold in 16 bits. */
  function FirstOutOfRange(s: seq<Option<Val>>, from: nat): (r: Option<nat>)
    requires from <= |s|
    ensures r.None? <==> forall i :: from <= i < |s| && s[i].Some? ==> InRange(s[i].value)
    ensures r.Some? ==> from <= r.value < |s| && s[r.value].Some? && !InRange(s[r.value].value)
    ensures r.Some? ==> forall i :: from <= i < r.value && s[i].Some? ==> InRange(s[i].value)
    decreases |s| - from
  {
    if from == |s| then None
    else if s[from].Some? && !InRange(s[from].value) then Some(from)
    else FirstOutOfRange(s, from + 1)
  }

  /**
   * The checks of Validate, then every integer setting must be in 0..0xFFFF and the key
   * at most 0xFFFF bytes long, the first offending slot being reported. What it accepts
   * is exactly what Validate accepts and the encoder represents without loss.
   */
  function ValidateStrict(a: Args): (r: Result<Args, ConfigError>)
    ensures Validate(a).Err? ==> r == Validate(a)
    ensures r.Ok? <==> Validate(a).Ok? && WellFormed(Slots(Validate(a).value))
    ensures r.Ok? ==> r == Validate(a) && WellFormed(Slots(r.value))
    ensures r.Err? && r.error.NotEncodable? ==>
              (r.error.option < NumOptions && Validate(a).Ok?
               && Slots(Validate(a).value)[r.error.option].Some?
               && !InRange(Slots(Validate(a).value)[r.error.option].value)
               && forall i :: 0 <= i < r.error.option && Slots(Validate(a).value)[i].Some?
                    ==> InRange(Slots(Validate(a).value)[i].value))
  {
    match Validate(a)
    case Err(e) => Err(e)
    case Ok(v) =>
      match FirstOutOfRange(Slots(v), 0)
      case Some(i) => Err(NotEncodable(i))
      case None => Ok(v)
  }

  /** An integer above 0xFF and the same integer plus 0x10000 encode alike: the top bits are masked off. */
  lemma UIntTruncates(v: int)
    requires v > 0xFF
    ensures EncUInt(v + 0x10000) == EncUInt(v)
  {
    assert (v + 0x10000) / 0x100 == v / 0x100 + 0x100;
  }

  /**
   * As written, the checks of lines 57-67 put no upper bound on the buffer size: a
   * configuration they accept is still accepted with 0x10000 more bytes of buffer, yet
   * both give the same parameter buffer, so the larger request is silently lost.
   */
  lemma ValidateAdmitsTruncation(a: Args)
    requires Validate(a).Ok?
    ensures Validate(a.(bufferMem := a.bufferMem + 0x10000)).Ok?
    ensures Validate(a.(bufferMem := a.bufferMem + 0x10000)).value != Validate(a).value
    ensures EncMap(Slots(Validate(a.(bufferMem := a.bufferMem + 0x10000)).value)) == EncMap(Slots(Validate(a).value))
  {
    var v := Validate(a).value;
    assert Validate(a.(bufferMem := a.bufferMem + 0x10000)) == Ok(v.(bufferMem := v.bufferMem + 0x10000));
    BufferMemWraps(v);
  }

  /** A buffer size above 0xFF and the same size plus 0x10000 give the same parameter buffer. */
  lemma BufferMemWraps(v: Args)
    requires v.bufferMem > 0xFF
    ensures EncMap(Slots(v.(bufferMem := v.bufferMem + 0x10000))) == EncMap(Slots(v))
  {
    var m := v.bufferMem + 0x10000;
    assert Slots(v.(bufferMem := m)) == Slots(v)[10 := Some(U(m))];
    UIntTruncates(v.bufferMem);
    MapReplaceAlike(Slots(v), 10, U(m));
  }

  /**
   * With the corrected checks, two accepted configurations that give the same parameter
   * buffer are the same configuration.
   */
  lemma StrictIsLossless(a1: Args, a2: Args)
    requires ValidateStrict(a1).Ok? && ValidateStrict(a2).Ok?
    requires EncMap(Slots(ValidateStrict(a1).value)) == EncMap(Slots(ValidateStrict(a2).value))
    ensures ValidateStrict(a1).value == ValidateStrict(a2).value
  {
    EncMapInjective(Slots(ValidateStrict(a1).value), Slots(ValidateStrict(a2).value));
    SlotsInjective(ValidateStrict(a1).value, ValidateStrict(a2).value);
  }

  /** The seven integer settings are always counted, so the map head is at least 0xA7. */
  lemma SettingsAlwaysCounted(a: Args)
    ensures EncMap(Slots(a))[0] >= 0xA7
  {
    CountAtLeast(Slots(a), 5, 12);
  }

  /**
   * The whole run (lines 57-124) with the corrected checks: a refused configuration gives
   * the first reason; an accepted one gives the encoding of its slots, which is a list
   * of bytes, starts with a map head counting at least the seven integer settings, and
   * reads back as exactly those slots.
   */
  method GetInstallParameters(a: Args) returns (r: Result<seq<int>, ConfigError>)
    ensures r.Ok? <==> ValidateStrict(a).Ok?
    ensures r.Err? ==> r == Err(ValidateStrict(a).error)
    ensures r.Ok? ==> r.value == EncMap(Slots(ValidateStrict(a).value))
    ensures r.Ok? ==> IsByteSeq(r.value) && 0xA7 <= r.value[0] <= 0xB3
    ensures r.Ok? ==> DecodeMap(r.value) == Some(Slots(ValidateStrict(a).value))
  {
    var checked := ValidateStrict(a);
    if checked.Err? {
      return Err(checked.error);
    }
    var slots := Slots(checked.value);
    var out := Encode(slots);
    MapIsBytes(slots);
    MapHead(slots);
    SettingsAlwaysCounted(checked.value);
    MapRoundTrip(slots);
    r := Ok(out);
  }
}
