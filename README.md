# Install parameters for the FIDO2 applet

`get_install_parameters.py` turns command-line settings into the installation
parameter buffer of the FIDO2 applet. The buffer is one CBOR map (RFC 8949). It holds
up to nineteen entries, keyed 0..18 by the position of the setting in a fixed option
list. Each value is one of three things:

- a CBOR boolean (`true` 0xF5, `false` 0xF4);
- an unsigned integer with a one-, two- or three-byte head (section 3.1 of RFC 8949,
  major type 0);
- a byte string with a length head of the same three sizes (major type 2).

An unset flag is left out of the map altogether. The map head `0xA0 + n` counts the
entries written. Before encoding, the script checks four numeric settings. A given
attestation key turns attestation on.

This project models that path from the parsed settings to the byte list that the
script prints as hex. It has four files:

- `wrappers.dfy` holds `Option` and `Result`.
- `encoding.dfy` (module `InstallEncoding`) holds the value encoders and the
  specification functions of the encoding loop. `Count` counts the present slots,
  `Pairs` gives the key/value bytes and `EncMap` the whole buffer. Lemmas state the
  byte layout, the canonical key order, the map head and what one loop iteration
  appends. `Encode` is the loop itself, proved equal to `EncMap`.
- `decoding.dfy` (module `InstallDecoding`) holds a strict reader of such buffers. It
  accepts only preferred serialization (section 4.2.1 of RFC 8949) and keys in
  increasing order. It is an independent reference, not part of the script, and the
  lemmas show it inverts the encoder: round trip, converse, injectivity.
- `options.dfy` (module `InstallParameters`) holds the rest:
  - the parsed arguments;
  - the option list that maps them to slots;
  - the checks as written (`Validate`) and as corrected (`ValidateStrict`, see
    Findings);
  - the whole run, `GetInstallParameters`.

Values are kept as the script keeps them, as Python integers in a list. Which values
make that list a list of bytes is proved, not assumed: `bytes()` at line 125 fails
otherwise.

## Model

| member | source | states |
|---|---|---|
| InstallEncoding.Encode | get_install_parameters.py:73-124 | the loop over the nineteen options, counting present ones and appending key then value, followed by the map head, returns exactly `EncMap` of the slots (loop invariants over the processed prefix) |
| InstallEncoding.UIntTiers | get_install_parameters.py:114-120 | an integer in 0..0xFFFF becomes `[v]` up to 23, `[0x18, v]` up to 255, else `0x19` and two bytes that give back `v` big-endian; all bytes, major type 0 |
| InstallEncoding.BytesTiers | get_install_parameters.py:106-113 | a byte string of up to 0xFFFF bytes gets the head `0x40+len`, `[0x58, len]` or `0x59` with the length big-endian, followed by the bytes unchanged; major type 2 |
| InstallEncoding.BytesHeadMirrorsUInt | get_install_parameters.py:107-120 | a string's length head is the integer head of its length with the major type moved from 0 to 2 |
| InstallEncoding.ValEncoding | get_install_parameters.py:101-120 | every value in range encodes to bytes whose first byte carries its major type; `true` and `false` are the one-byte simple values 21 and 20 |
| InstallEncoding.CountZero | get_install_parameters.py:96-99 | no option is counted exactly when every option is unset |
| InstallEncoding.PairsLength | get_install_parameters.py:101-122 | each set option adds at least two bytes; the pairs are empty exactly when no option is counted |
| InstallEncoding.PairsAreBytes | get_install_parameters.py:122 | with values in range and keys below 256 every appended element is a byte |
| InstallEncoding.MapIsBytes | get_install_parameters.py:124-125 | with values in range the whole buffer is a byte list, so the conversion at line 125 succeeds |
| InstallEncoding.EmptyMap | get_install_parameters.py:96-124 | the buffer is the lone empty-map head `0xA0` exactly when every option is unset |
| InstallEncoding.AppendSlot | get_install_parameters.py:96-122 | one iteration: an unset option adds nothing and no count; a set one adds one to the count and appends its position and then its value |
| InstallEncoding.CountIsPresentSlots | get_install_parameters.py:99 | the counter equals the number of options that are set |
| InstallEncoding.CountAtLeast | get_install_parameters.py:99 | a run of set options counts at least its length |
| InstallEncoding.MapHead | get_install_parameters.py:124 | the first byte is `0xA0` plus the number of set options and stays within 0xA0..0xB3 |
| InstallEncoding.PairsHead | get_install_parameters.py:75-122 | keys come out in list order: the first byte after the head is the position of the first set option, and every option before it is unset |
| InstallEncoding.ReplaceAlike | get_install_parameters.py:96-122 | replacing a set option's value by one with the same encoding changes neither the count nor the pairs |
| InstallEncoding.MapReplaceAlike | get_install_parameters.py:73-124 | the same for the whole buffer |
| InstallDecoding.EncodedValReads | get_install_parameters.py:101-120 | every value in range is read back from its encoding, whatever follows it |
| InstallDecoding.ReadIsEncoded | get_install_parameters.py:101-120 | whatever the reader takes as one value is in range and is exactly that value's encoding |
| InstallDecoding.PairsRead | get_install_parameters.py:75-122 | the pairs of well-formed slots read back as those slots |
| InstallDecoding.ReadPairs | get_install_parameters.py:75-122 | whatever slots the reader returns are well formed, their count is the one read, and their pairs are the bytes read |
| InstallDecoding.MapRoundTrip | get_install_parameters.py:73-124 | every well-formed slot list is read back from its buffer: nothing set, unset or held is lost |
| InstallDecoding.ReadMapIsEncoded | get_install_parameters.py:73-124 | every buffer the reader accepts is the encoding of the well-formed slots it returns |
| InstallDecoding.EncMapInjective | get_install_parameters.py:73-124 | distinct well-formed slot lists give distinct buffers |
| InstallParameters.Slots | get_install_parameters.py:75-96 | the nineteen settings in list order, each looked up by name; each slot holds the kind its option is parsed as, and the seven integer settings with defaults (lines 22-37) are always set |
| InstallParameters.SlotsInjective | get_install_parameters.py:75-96 | every setting has its own position: distinct arguments give distinct slot lists |
| InstallParameters.Validate | get_install_parameters.py:57-71 | accepts exactly when buffer memory is at least 1024, the large blob store is 1024..2048, the cred blob length and the RK RP length are 32..255; otherwise the first failing check in source order is reported; a given attestation key sets attestation on and nothing else changes |
| InstallParameters.FirstOutOfRange | get_install_parameters.py:112-120 | finds the first slot whose value the three-byte head cannot hold, or reports that there is none |
| InstallParameters.ValidateStrict | get_install_parameters.py:57-71 | Validate's errors unchanged; otherwise accepts exactly the configurations whose every value fits 16 bits, and reports the first one that does not |
| InstallParameters.UIntTruncates | get_install_parameters.py:120 | as written, an integer above 0xFF and the same integer plus 0x10000 encode alike |
| InstallParameters.ValidateAdmitsTruncation | get_install_parameters.py:57-67 | as written, an accepted configuration is still accepted with 0x10000 more buffer memory, yet both give the same buffer |
| InstallParameters.BufferMemWraps | get_install_parameters.py:115-120 | raising the buffer size above 0xFF by 0x10000 leaves the parameter buffer unchanged |
| InstallParameters.StrictIsLossless | get_install_parameters.py:57-124 | with the corrected checks, two accepted configurations with the same buffer are the same configuration |
| InstallParameters.SettingsAlwaysCounted | get_install_parameters.py:22-37 | the seven integer settings are always counted, so the map head is at least 0xA7 |
| InstallParameters.GetInstallParameters | get_install_parameters.py:57-124 | a refused configuration gives the first reason; an accepted one gives the encoding of its slots, a byte list with head 0xA7..0xB3 that reads back as exactly those slots |

## Left out

- Argument parsing, help text and `parser.error` (lines 7-55). The parsed arguments are
  the input `Args`, and a refusal is an `Err` naming the failed check; the exit itself
  is not modelled.
- Base64 decoding of the attestation key (line 71). The key is taken already decoded,
  and a malformed base64 string, which makes the script fail, is not modelled.
- Printing the hex string (line 125). The model ends with the integer list that is
  passed to `bytes()`. A negative integer setting, or any value `bytes()` would refuse,
  is `NotEncodable` in `ValidateStrict`; the script ends in a `ValueError` there.
- Which boolean a `store_false` option yields when given (lines 38-45). Flags are any
  `Option<bool>`, so `Slots` covers both polarities.
- Python's `val is True` and `isinstance(val, bytes)` tests. The kind of each value is
  carried by the `Val` constructor, so a flag and the integer 1 cannot be confused.
- The reader in `decoding.dfy` is not part of the script. It is the reference against
  which the encoding is proved lossless.

## Findings

| source | as written | input that shows it | evidently intended | confidence | as-written member | corrected member |
|---|---|---|---|---|---|---|
| get_install_parameters.py:57-67 | the checks put no upper bound on `buffer_mem`, `kdf_iterations`, `max_ram_scratch`, `flash_scratch` or `certification_level`, and the three-byte heads of lines 112 and 120 mask with `0xFF00` and `0x00FF`, so the bits above 16 are dropped | `--buffer-mem 66560` is accepted and encodes exactly like `--buffer-mem 1024` | refuse any integer above 0xFFFF (and any negative one) instead of silently truncating it | not executed | InstallParameters.ValidateAdmitsTruncation | InstallParameters.ValidateStrict |

`GetInstallParameters` uses the corrected checks. `StrictIsLossless` proves that under
them no two accepted configurations share a buffer.
