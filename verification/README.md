# KOMMS payload codec, state hash and UTXO selection: a Dafny model

This project models three parts of the KOMMS command-line client and proves what their
documentation says they are for.

* **The wire codec** (`protocol/`). A payload is the prefix `KOMM` and one CBOR map in a profile
  stricter than section 4.2.1 of RFC 8949. `Canonical` is the cursor walker that enforces the
  profile, `Parse` the parser that empties a field map key by key, `Encode` the encoder that pushes
  pairs in key order, `Event` the structural validation, `Signing` the signing payload and its
  verification. The theorems say which byte strings are accepted, that each stands for one item,
  and on exactly which events and payloads parse and encode undo each other.
* **The plurality state hash** (`crypto/src/state_hash.rs`). A block is hashed as a CBOR array of
  its event projections in transaction id order, chained block to block. The theorems say that the
  order events arrive in is irrelevant, and that equal hashes mean equal histories.
* **UTXO selection** (`src/submit.rs`). A greedy loop whose target moves with each pick. The theorem
  says exactly when it is complete and optimal: when 64-bit wrapping changes nothing the loop sees
  up to the first prefix that truly pays.

## How the model is laid out

| module | what it holds |
|---|---|
| `Base` | machine types, big-endian integers, lexicographic order |
| `Cbor` | items, their shortest-form printer `Enc`, unique decodability, the canonical profile |
| `Canonical` | the walker: a specification that returns the item or the error, and the class `Cursor` whose methods follow it |
| `CanonicalLanguage` | soundness and completeness: what the walker accepts |
| `Refusals` | what it refuses: the first rule an item breaks, bad heads, truncation |
| `Values`, `Utf8` | the values a program holds after decoding; what UTF-8 is |
| `Event` | events, error types, `ValidateEvent` |
| `Rules` | the validation rules as a table, and taking fields away or putting them in |
| `Fields` | the wire layout as one table in each direction, proved inverse |
| `Pairs` | ascending key/value lists and the maps they stand for |
| `Encode`, `Parse`, `Payload` | encoder, destructive parser, wire entries |
| `Layout` | the bytes of a payload, type by type, key by key, field by field |
| `Emitted` | what the walker and the parser make of whatever the encoder emits |
| `RoundTrip`, `Boundaries`, `Conservation` | the codec theorems, concrete cases outside their domains, what the parse keeps |
| `Payloads` | which events the parser returns, and how many payloads each of them has |
| `Signing` | signing payload, splice, verification |
| `Hashing`, `StateHash` | hasher, DM thread id, state hash |
| `Submit` | fee arithmetic, in-place sort, greedy selection |

Byte strings are sequences of integers below 256. A Rust vector or slice is the type `Vec`, whose
length fits a 64-bit `usize`. An event is a record of all 33 core fields and a map of extensions;
field types carry what Rust's types guarantee (64-bit integers, array lengths, UTF-8 strings). The
hash is a function parameter, Ed25519 a pair of function parameters; nothing is assumed of either
except, for the state hash, that no two different byte strings hashed along the two chains collide.

Modelling assumptions about the CBOR library: decoding canonical bytes gives the item they print,
with the simple value `undefined` read as null and any text that is not UTF-8 refused; encoding a
value prints it with shortest-form definite-length heads. A modelled value may hold a float of any
width and is printed at that width; the library holds every float as a double and prints it in the
shortest width that loses nothing, so its floats are those of the model that cannot be narrowed.
Rust's `sort_by` is a stable sort; it is
written out here as an in-place insertion sort, and the sorted result is proved unique.

## Where the documentation and the code differ

* `protocol/src/encode.rs:94-95` says it is impossible to emit a payload that would later be refused.
  `Boundaries.EmittedFloatIsRefused`, `Boundaries.EmittedGroupV0IsRefused`,
  `Boundaries.EmittedCoreKeyIsRefused` and `Boundaries.EmittedMistypedKeyIsRefused` are payloads that
  are emitted and refused. `Boundaries.EmittedKeyIsAbsorbed`, `Boundaries.EmittedSignerIsAbsorbed` and
  `Boundaries.EmittedSigIsAbsorbed` are accepted as another event, with another target, in-band signer
  or signature; `Signing.VerdictSurvivesTheWire` says exactly when verdict and signer survive.
  `Emitted.EmittedIsAcceptedIff` gives the exact condition for every event that encodes, and
  `Emitted.EmittedOutcome` the event or the error that comes back.
* `protocol/src/canonical.rs:7-16` wants one byte string per event. A version 0 event whose scheme is
  the one its flag implies has two accepted payloads, with key 13 and without
  (`Boundaries.PlainServerHasTwoPayloads`); so has one with role 255, and one with a null among its
  extensions. All other events have one: `Payloads.OnePayloadIff`.
* `protocol/src/lib.rs:588-589` says version 0 inputs have no key 13. The parser accepts one that
  does, keeps the scheme, and the encoder then drops it: `RoundTrip.ParseThenEncode`,
  `RoundTrip.RelayedIsAcceptedIff`, `Boundaries.ReencodedDifferently`,
  `Boundaries.RelayedGroupV0IsRefused`.
* `protocol/src/lib.rs:608-614` says a role above 255 surfaces as an unknown role. It does so exactly
  when the type is a role assignment or revocation and every earlier check passes. All other types
  ignore the role, so an event that is valid without it is accepted with the role 255:
  `Conservation.SaturatedRole`, `Event.UnknownRoleIff`.
* `protocol/src/verify.rs:38-45` describes in-band verification of device registration and revocation.
  Those types, and the sealed leave, have no signing payload at all:
  `Signing.SigningPayloadExistsIff`, `Signing.SigDemandingTypesNeverVerify`,
  `Boundaries.DeviceRevokeNeverVerifies`.
* `crypto/src/state_hash.rs:71-77` says bodies that are not canonical will make two indexers disagree.
  They may agree on different bodies instead: `StateHash.UndelimitedBodiesAgree`. Agreement needs only
  that no body is a proper prefix of another, which any deterministically encoded CBOR meets
  (`StateHash.PrintedDelimited`), inside the Komms profile or not.
* The state hash covers the projections only. Two blocks with the same bodies in the same order hash
  alike whatever their transaction ids are (`StateHash.BlockBytesDetermineBodies`), so
  `StateHash.PluralityAgreement` speaks of bodies.

## Model

| member | source | states |
|---|---|---|
| Cbor.HeadShape | crypto/src/state_hash.rs:135-154 | a head is its initial byte followed by the big-endian argument in the least width, and the argument reads back |
| Cbor.HeadPrefixFree | crypto/src/state_hash.rs:135-154 | no two heads start the same byte string, so type and argument can be read off |
| Cbor.EncPrefixFree | protocol/src/encode.rs:238-241 | printed CBOR is self-delimiting for every definite-length item, floats, tags, unassigned simple values and unsorted maps included |
| Cbor.EncInjective | protocol/src/canonical.rs:7-16 | different items never print to the same bytes |
| Canonical.DecodeItem | protocol/src/canonical.rs:76-154 | specification of the walker: the item at a position and the strictly later position after it, or the error reported |
| Canonical.DecodeArgument | protocol/src/canonical.rs:177-216 | specification of the head argument; never moves back or past the end |
| Canonical.Cursor.ReadU8 | protocol/src/canonical.rs:218-227 | reads the byte at the cursor and moves one on, or reports truncation there and stays |
| Canonical.Cursor.ReadBigEndian | protocol/src/canonical.rs:229-262 | reads a 2, 4 or 8 byte integer whole or reports truncation at its start |
| Canonical.Cursor.SkipBytes | protocol/src/canonical.rs:264-273 | skips a string that fits, and reports truncation at its start if it does not or if the sum overflows |
| Canonical.Cursor.ReadArgument | protocol/src/canonical.rs:177-216 | reads the argument announced by the initial byte and refuses any wider form than needed |
| Canonical.Cursor.ReadUintKey | protocol/src/canonical.rs:156-174 | reads an unsigned map key or reports why the key is refused, in the documented order |
| Canonical.Cursor.WalkItem | protocol/src/canonical.rs:76-154 | follows the specification in outcome and position; calls are bounded by bytes consumed, recursion by the nesting limit |
| Canonical.Cursor.WalkElements | protocol/src/canonical.rs:105-112 | the count-driven array loop gives what decoding that many items gives, for any declared count |
| Canonical.Cursor.WalkPairs | protocol/src/canonical.rs:113-135 | the map loop with its remembered key gives what decoding that many ascending entries gives |
| Canonical.ValidateCanonical | protocol/src/canonical.rs:65-74 | accepts exactly what the specification accepts, with at most one call per byte plus one and at most ten live frames |
| CanonicalLanguage.HeadReadBack | protocol/src/canonical.rs:177-216 | reading back any written head gives its argument, wherever it stands |
| CanonicalLanguage.HeadAccepted | protocol/src/canonical.rs:177-216 | every accepted head is the one the writer emits for that argument |
| CanonicalLanguage.KeyOrderIsBytewise | protocol/src/canonical.rs:20-21 | numeric key order is bytewise order of the encoded keys, so the key rule refines section 4.2.1 of RFC 8949 |
| CanonicalLanguage.DecodeItemSound | protocol/src/canonical.rs:76-154 | whatever the walker passes over is the printed form of an item in the profile at that depth |
| CanonicalLanguage.DecodeItemComplete | protocol/src/canonical.rs:76-154 | the printed form of every item in the profile is passed over, in full and no further |
| CanonicalLanguage.AcceptsExactlyCanonical | protocol/src/canonical.rs:65-74 | a byte string is accepted if and only if it prints some item in the profile, and that item is unique |
| CanonicalLanguage.EncodingAcceptedIff | protocol/src/canonical.rs:18-30 | a printed item is accepted if and only if the item itself obeys the profile |
| Refusals.ValidateReportsFirstBreach | protocol/src/canonical.rs:76-174 | for the print of any item the answer is the first rule the item breaks in wire order, with offset and value, and acceptance if it breaks none, which is being in the profile |
| Refusals.RejectionNamesProfileRule | protocol/src/canonical.rs:18-30 | well-formed shortest-form CBOR outside the profile is always refused by naming a profile rule, never as truncated or malformed |
| Refusals.NestingLimit | protocol/src/canonical.rs:76-79 | an integer inside k one-element arrays is accepted if and only if k is at most 8, and else refused at offset 9 |
| Refusals.BadHeadRefused | protocol/src/canonical.rs:84-91 | additional info 31 is an indefinite length and 28 to 30 reserved, at the head, at any position |
| Refusals.LongHeadRefused | protocol/src/canonical.rs:177-216 | a head of a greater width than its argument needs is refused as not shortest, at the head |
| Refusals.BadKeyRefused | protocol/src/canonical.rs:159-174 | a key that is no unsigned integer, or of indefinite or reserved argument, is refused at the key |
| Refusals.LongKeyRefused | protocol/src/canonical.rs:159-174 | so is a key of a greater width than it needs |
| Refusals.DecidedAtHead | protocol/src/canonical.rs:76-154 | nesting, floats and simple values are decided by one byte, whatever follows |
| Refusals.TagRefused | protocol/src/canonical.rs:136-142 | a tag is refused at its head, whatever follows |
| Refusals.ShortHeadRefused | protocol/src/canonical.rs:229-262 | an argument cut short is truncation behind the initial byte |
| Refusals.ShortStringRefused | protocol/src/canonical.rs:264-273 | a string cut short is truncation behind its head |
| Refusals.ArrayStops | protocol/src/canonical.rs:105-112 | a refusal of an element behind good ones is the array's |
| Refusals.MapStops | protocol/src/canonical.rs:113-135 | a refusal of a key or value behind good entries is the map's |
| Refusals.ProperPrefixIsTruncated | protocol/src/canonical.rs:218-273 | cutting an accepted string anywhere is reported as truncation at the offset the item determines, which lies within the cut |
| CanonicalLanguage.ProperExtensionIsTrailing | protocol/src/canonical.rs:70-72 | appending to an accepted string is reported as trailing bytes at its old end |
| Event.FromU8 | protocol/src/lib.rs:194-223 | every byte is the code of the type it decodes to |
| Event.KnownTypeRoundTrip | protocol/src/lib.rs:157-223 | decoding the code of a known type gives that type back |
| Event.ValidShape | protocol/src/lib.rs:826-936 | a valid event has a known version and type, a scheme in version 1, and never key 30 |
| Event.ClearingSig | protocol/src/lib.rs:1070-1118 | clearing the signature of a valid event invalidates it exactly for the three types that demand one, with that error |
| Event.ResynthesisedValidIff | protocol/src/lib.rs:586-592 | exactly when a valid version 0 event is still valid once its scheme is replaced by the one its flag implies |
| Event.UnknownRoleIff | protocol/src/lib.rs:1034-1064 | a role is reported as unknown if and only if it is above 4, the type is a role assignment or revocation, and the common checks, the server id and the target have passed |
| Event.RoleIgnored | protocol/src/lib.rs:826-1146 | the role has no say in the common checks, nor in the verdict on any other type |
| Rules.CommonIsTable | protocol/src/lib.rs:827-936 | the common conditions as a list of sixteen: the error reported is that of the first which fails |
| Rules.TypeIsTable | protocol/src/lib.rs:963-1143 | the arm of every type is a row of a table of demanded fields with their counterparts, forbidden fields, role checks and the fate of the flag |
| Rules.ValidationIsTable | protocol/src/lib.rs:826-1146 | validation reports the first common condition that fails, and else what the table says |
| Rules.ValidIff | protocol/src/lib.rs:826-1146 | an event is valid if and only if the common conditions hold, every demand is met, no ban is broken, and role, target and flag are in order |
| Rules.ClearingField | protocol/src/lib.rs:826-1146 | a valid event without one of its fields fails with the error of the common condition or the demand that rested on it, and stays valid if none did |
| Rules.ClearingScheme | protocol/src/lib.rs:878-936 | without its scheme version 1 fails, and version 0 unless its validity does not rest on the group scheme |
| Rules.MetWithout | protocol/src/lib.rs:938-946 | exactly which demands rest on a field |
| Rules.SettingField | protocol/src/lib.rs:955-961 | setting an id of a valid event gives the error of the ban on it, and leaves it valid if there is none |
| Utf8.ValidUtf8Iff | protocol/src/lib.rs:771-790 | the strings taken for UTF-8 are exactly the encodings of Unicode scalar values (section 3 of RFC 3629) |
| Fields.FirstComplaintNone | protocol/src/lib.rs:545-617 | the parser has nothing to complain of if and only if every core key present is well typed and the mandatory ones are present |
| Fields.Conservation | protocol/src/lib.rs:545-674 | a well-typed field map is found again in the event key by key, but for the dropped version 0 scheme and the saturated role |
| Fields.FieldsDetermine | protocol/src/encode.rs:107-230 | an event is determined by what it writes, its type and its version 0 scheme |
| Fields.Rebuild | protocol/src/lib.rs:545-674 | building an event from the map it writes gives the event back with its version 0 scheme resynthesised |
| Pairs.ListingOfMap | protocol/src/encode.rs:232-236 | an ascending list of entries is the in-order iteration of its map |
| Pairs.ListingInjective | protocol/src/encode.rs:232-236 | in-order iteration determines the map |
| Encode.EncodeCborMap | protocol/src/encode.rs:96-242 | pushing the pairs one by one gives the printed map of all fields in key order, or the validation error |
| Encode.PushIds | protocol/src/encode.rs:107-122 | pushes keys 0 to 5 behind nothing else |
| Encode.PushContent | protocol/src/encode.rs:123-137 | pushes keys 6 to 11 |
| Encode.PushThreading | protocol/src/encode.rs:139-172 | pushes keys 12 to 16, and key 13 only outside version 0 |
| Encode.PushDevice | protocol/src/encode.rs:173-184 | pushes keys 17 to 20 |
| Encode.PushSealed | protocol/src/encode.rs:186-203 | pushes keys 21 to 25 |
| Encode.PushGroup | protocol/src/encode.rs:204-218 | pushes keys 26 to 30 |
| Encode.PushRoles | protocol/src/encode.rs:220-230 | pushes keys 31 and 32 |
| Encode.PushExtensions | protocol/src/encode.rs:232-236 | appends the whole extension map in key order |
| Encode.EncodeKommsPayload | protocol/src/encode.rs:258-264 | prefix and encoded map, or the validation error |
| Encode.WirePairsAreListing | protocol/src/encode.rs:103-105 | with extension keys clear of the core the pushed pairs are the in-order listing of the event's map |
| Layout.InitialBytes | protocol/src/canonical.rs:76-154 | the initial bytes of every kind of item |
| Layout.HeadInNumbers | crypto/src/state_hash.rs:135-154 | the head of every 64-bit argument, byte by byte |
| Layout.TypeNumbers | protocol/src/lib.rs:157-223 | which type has which code, in both directions |
| Layout.CoreLayout | protocol/src/encode.rs:107-230 | the bytes of all core fields of any event, key by key, and their number |
| Layout.PayloadBytes | protocol/src/encode.rs:258-264 | the payload of any valid event, from `KOMM` and the map head to the extensions |
| Layout.ServerV1Parses | protocol/src/lib.rs:1154-1163 | a version 1 server creation, written out byte by byte for any id, time and counter, parses to that event and is what it encodes to |
| Parse.ParseCborMap | protocol/src/lib.rs:533-675 | removing fields one by one gives the event the table stands for, or the first complaint in the order keys are taken, for every decoded value |
| Parse.CollectFields | protocol/src/lib.rs:537-543 | collects the entries into a map and stops at the first bad or repeated key |
| Parse.FieldMap.PopUint | protocol/src/lib.rs:682-690 | removes the key and gives its unsigned value, or says that it is missing or mistyped |
| Parse.FieldMap.PopBytes32 | protocol/src/lib.rs:692-709 | removes the key and gives its 32 bytes, nothing if absent, or the type error |
| Parse.FieldMap.PopBytes16 | protocol/src/lib.rs:711-728 | removes the key and gives its 16 bytes, nothing if absent, or the type error |
| Parse.FieldMap.PopBytes | protocol/src/lib.rs:730-741 | removes the key and gives its bytes, nothing if absent, or the type error |
| Parse.FieldMap.PopTextOpt | protocol/src/lib.rs:743-754 | removes the key and gives its text, nothing if absent, or the type error |
| Parse.FieldMap.PopUintOpt | protocol/src/lib.rs:756-768 | removes the key and gives its unsigned value, nothing if absent, or the type error |
| Parse.PopEnvelope | protocol/src/lib.rs:545-551 | takes version, type and flag, refusing a type above 255 |
| Parse.PopSig | protocol/src/lib.rs:563-575 | takes the signature, telling a wrong type from a wrong length |
| Parse.PopIds | protocol/src/lib.rs:545-557 | takes keys 0, 1, 8 and 2 to 6 into the event |
| Parse.PopContent | protocol/src/lib.rs:558-575 | takes keys 7 and 9 to 11 into the event |
| Parse.PopThreading | protocol/src/lib.rs:577-592 | takes keys 12 to 16 and synthesises the version 0 scheme |
| Parse.PopDevice | protocol/src/lib.rs:583-586 | takes keys 17 to 20 into the event |
| Parse.PopSealed | protocol/src/lib.rs:594-599 | takes keys 21 to 25 into the event |
| Parse.PopGroup | protocol/src/lib.rs:600-604 | takes keys 26 to 30 into the event |
| Parse.PopEpoch | protocol/src/lib.rs:603-604 | takes keys 29 and 30 |
| Parse.PopRoles | protocol/src/lib.rs:606-617 | takes keys 31 and 32, saturating the role |
| Parse.DrainExtensions | protocol/src/lib.rs:619-637 | moves every extension key out, after which nothing is left |
| Payload.RunParseKommsPayload | protocol/src/lib.rs:1154-1163 | walking with the cursor and emptying the field map computes the strict entry on every input |
| Payload.EntriesAgree | protocol/src/lib.rs:1154-1188 | the two entries agree on every input except future versions and opaque types; there the lenient one gives the version, or the event parsed, and bytes that re-prefix to the input |
| Payload.ParseOfWireForm | protocol/src/lib.rs:530-675 | what parsing does with any canonical map, error by error; keys are never duplicates |
| Layout.PrefixIff | protocol/src/lib.rs:523-525 | the prefix is missing if and only if the first four bytes are not `KOMM` |
| Layout.FutureVersionIff | protocol/src/lib.rs:1158-1160 | a well-typed map is put off as a future version if and only if its key 0 holds 2 or more, and the version reported is that one |
| Layout.FirstComplaintIsFirst | protocol/src/lib.rs:545-617 | the complaint reported is that about the first core key, in the order written out, that gives rise to one |
| Layout.ComplaintAbout | protocol/src/lib.rs:682-768 | what is expected under every core key, and the name it is reported by |
| Parse.RepeatedKey | protocol/src/lib.rs:537-543 | the first key that occurred before is reported as a duplicate |
| RoundTrip.ParsedForm | protocol/src/lib.rs:1154-1163 | whatever the strict entry accepts is the prefix and one canonical, well-typed map of byte keys, and the event is the valid one built from it |
| Emitted.WirePairsAscendIff | protocol/src/encode.rs:103-105 | the keys pushed ascend if and only if every extension key lies past the last core key written |
| Emitted.EncoderOutputAcceptedIff | protocol/src/encode.rs:94-105 | the walker accepts what the encoder prints if and only if the extension keys follow the core keys written and every extension value is in the profile one level down |
| Emitted.SamePairsIff | protocol/src/encode.rs:103-105 | with extension keys past the core keys written, two events write the same pairs if and only if they write the same map |
| Emitted.EmittedOutcome | protocol/src/encode.rs:94-105 | for every event that encodes: the refusal by a profile rule, the type complaint about an extension under a core key, or the verdict on the event in which such extensions have become core fields |
| Emitted.EmittedIsAcceptedIff | protocol/src/encode.rs:94-95 | an emitted payload is accepted if and only if its extension keys follow the core keys, its extension values are in the profile, those under core keys have their key's type, and the event they turn into is valid |
| Emitted.NothingAbsorbed | protocol/src/lib.rs:619-629 | with extension keys of 33 and above, the event that comes back is the one encoded, its version 0 scheme resynthesised |
| Emitted.AbsorbedField | protocol/src/lib.rs:545-674 | every key emitted is found in the event read back, but for a version 0 scheme and a role above 255 |
| RoundTrip.EncodeThenParse | protocol/src/encode.rs:94-242 | for extensions in the domain, parsing the encoding gives the event with its version 0 scheme resynthesised, or that event's validation error |
| RoundTrip.EncodeParseIdentityIff | protocol/src/encode.rs:94-242 | an event comes back unchanged if and only if its extensions are in the domain and a version 0 scheme is the one its flag implies |
| RoundTrip.EncodedIsAcceptedIff | protocol/src/encode.rs:94-95 | with extension keys of 33 and above an emitted payload is accepted if and only if its extension values are in the profile and it is not a version 0 event that leans on the group scheme |
| RoundTrip.ParsedInDomain | protocol/src/lib.rs:619-629 | every parsed event has its extensions in the domain |
| RoundTrip.ParseThenEncode | protocol/src/encode.rs:144-163 | every accepted payload re-encodes, and to the same bytes if and only if it has no version 0 key 13, no role above 255 and no `undefined` among its extensions |
| RoundTrip.SchemeNotWritten | protocol/src/encode.rs:144-163 | resynthesising the scheme of version 0 never changes the bytes written |
| RoundTrip.ReencodeStabilises | protocol/src/encode.rs:144-158 | a relay that parses and re-encodes reaches a fixed point after one trip |
| RoundTrip.RelayedIsAcceptedIff | protocol/src/encode.rs:144-158 | what a relay emits is accepted again if and only if it did not drop the group scheme the event's validity rested on |
| RoundTrip.OnePayloadPerEvent | protocol/src/canonical.rs:7-16 | two payloads that re-encoding reproduces and that parse to the same event are the same bytes |
| Payloads.PayloadFor | protocol/src/lib.rs:1154-1163 | every valid event in the domain that has a scheme is what the payload writing all its fields parses to |
| Payloads.ParserImage | protocol/src/lib.rs:1154-1163 | the events the parser returns are exactly the valid ones in the domain that have a scheme |
| Payloads.OnePayloadIff | protocol/src/canonical.rs:7-16 | an accepted payload is the only one of its event if and only if the event is not version 0 with the scheme its flag implies, its role is not 255 and no extension holds a null |
| Payloads.TwoPayloads | protocol/src/canonical.rs:7-16 | any event the parser can return that fails one of the three has two different accepted payloads |
| Boundaries.ExtensionOutsideProfileRefused | protocol/src/encode.rs:94-95 | an extension value outside the profile is emitted and then refused, by the name of a profile rule |
| Boundaries.EmittedFloatIsRefused | protocol/src/encode.rs:94-95 | a concrete event that is encoded and refused: a float among its extensions |
| Boundaries.EmittedGroupV0IsRefused | protocol/src/encode.rs:94-95 | a concrete event with canonical extensions that is encoded and refused: a group-encrypted version 0 message |
| Boundaries.LowCoreKeyRefused | protocol/src/encode.rs:232-236 | an extension under any of the keys 0 to 8 is emitted out of order and refused as not canonical |
| Boundaries.EmittedCoreKeyIsRefused | protocol/src/encode.rs:232-236 | a concrete event that is encoded and refused: a core key in the extension map, out of order |
| Boundaries.EmittedMistypedKeyIsRefused | protocol/src/encode.rs:232-236 | a concrete event that is encoded and refused: a core key in the extension map with a value of the wrong type |
| Boundaries.EmittedKeyIsAbsorbed | protocol/src/encode.rs:232-236 | any byte string under extension key 32 of a plain event is accepted as its target, and both events have the same signing payload |
| Boundaries.EmittedSignerIsAbsorbed | protocol/src/verify.rs:133-138 | any 32 bytes under extension key 17 turn an event with an out-of-band signer into one with those bytes as in-band signer |
| Boundaries.EmittedSigIsAbsorbed | protocol/src/verify.rs:165-173 | any 64 bytes under extension key 11 turn an unsigned event into one signed by them |
| Boundaries.RelayedGroupV0IsRefused | protocol/src/encode.rs:144-158 | a received payload that is accepted, and whose relayed form is refused |
| Boundaries.PlainServerHasTwoPayloads | protocol/src/lib.rs:586-592 | a concrete event with two accepted payloads, one with key 13 and one without |
| Boundaries.OnlyPayloadNotReproduced | protocol/src/encode.rs:144-158 | a concrete payload that is the only one of its event, and that re-encoding does not reproduce |
| Boundaries.DeviceRevokeNeverVerifies | protocol/src/verify.rs:38-45 | a valid device revocation, with any key and signature, that fails under every scheme and key |
| Boundaries.ReencodedDifferently | protocol/src/encode.rs:144-158 | each of the three conditions for byte-identical re-encoding is needed: breaking any one gives an accepted payload that changes |
| Conservation.FieldsConserved | protocol/src/lib.rs:537-637 | after a successful parse every wire entry is in the event under its own key and nothing else is, but for a version 0 scheme, which is the one on the wire or else the one the flag implies |
| Conservation.SaturatedRole | protocol/src/lib.rs:606-617 | a role above 255 is read as 255: role-management types always refuse the payload, as the unknown role 255 exactly when every earlier check passes; other types treat it as they would without a role |
| Conservation.ReservedCoreKeyUnreachable | protocol/src/lib.rs:631-637 | no decoded value makes the parser report a reserved core key |
| Conservation.ParseErrorsOfCanonical | protocol/src/lib.rs:530-543 | behind the canonical check keys are never duplicates, and decoding fails if and only if some text is not UTF-8 |
| Signing.SigningPayloadExistsIff | protocol/src/encode.rs:252-256 | a valid event has a signing payload if and only if its type does not demand a signature |
| Signing.SigningPayloadCoversPairs | protocol/src/encode.rs:249-256 | for all events, signing payloads are equal if and only if the pairs written without key 11 are |
| Signing.SigningPayloadDetermines | protocol/src/encode.rs:249-256 | with extension keys of 33 and above, whatever their values, signing payloads are equal if and only if the events agree on everything except the signature and the version 0 scheme |
| Signing.SigningPayloadIsSplice | protocol/src/encode.rs:249-256 | for every signed event whose type does not demand it, the signing payload is the encoding with the 67 bytes of key 11 cut out and the map head lowered by one, which is shorter only from 24 entries to 23 and from 256 to 255; with extension keys of 33 and above there are at most 255 |
| Signing.VerifyEvent | protocol/src/verify.rs:165-173 | accepts if and only if there is a signature, the event has a signing payload, the key is valid and the signature verifies strictly over that payload; and says which of the four is wanting, in this order |
| Signing.VerdictSurvivesTheWire | protocol/src/verify.rs:165-173 | when an emitted event is accepted, its verdict is unchanged under every scheme and key if and only if no extension stands under key 11 and, where a signature is checked, none under key 13 in version 0 or under key 31 above 255; its signer is unchanged if and only if none stands under key 17 |
| Signing.AbsorbedSigDiffers | protocol/src/verify.rs:165-173 | an extension taken for the signature changes the verdict under every scheme and key |
| Signing.SameVerdictsIff | protocol/src/verify.rs:165-173 | verdicts on one signature agree under every scheme and key if and only if the signing payloads do |
| Signing.VerdictDependsOnSignedFields | protocol/src/verify.rs:15-31 | a verdict depends on nothing but the key, the signature and the signed fields |
| Signing.SigDemandingTypesNeverVerify | protocol/src/verify.rs:33-45 | the types that demand a signature fail verification with an encoding error under every key |
| Hashing.Sha256Domain | protocol/src/encode.rs:44-51 | feeding domain and parts in turn hashes their concatenation |
| Hashing.DmThreadId | protocol/src/encode.rs:82-88 | hashes the domain, the smaller and then the larger address |
| Base.LexLessIff | protocol/src/encode.rs:82-88 | the order of addresses and transaction ids: a proper prefix comes first, and otherwise the first difference decides |
| Hashing.DmPreimageLayout | protocol/src/encode.rs:80-88 | the bytes hashed are `KOMMS_DM_V0`, the smaller address, the larger |
| Hashing.DmPreimageSymmetric | protocol/src/encode.rs:80-88 | both participants hash the same bytes |
| Hashing.DmPreimageIff | protocol/src/encode.rs:80-88 | the bytes hashed and the length of the smaller address are equal if and only if the unordered pairs are, for all byte strings |
| Hashing.DmPreimageFaithful | protocol/src/encode.rs:80-88 | between addresses of equal length the bytes hashed determine the unordered pair, and conversely |
| Hashing.DmPreimageAmbiguousAcrossLengths | protocol/src/encode.rs:80-88 | across lengths they do not: a concrete pair of pairs |
| StateHash.StateHashGenesis | crypto/src/state_hash.rs:95-100 | hashes the domain and 32 zero bytes |
| StateHash.SortIndices | crypto/src/state_hash.rs:114-115 | the index vector sorted in place is the stable order by transaction id |
| StateHash.StateHashNext | crypto/src/state_hash.rs:110-129 | hashes the prior hash and then the block, which for bodies that each print one CBOR item is the array of them in stable transaction id order |
| StateHash.NextPreimageLayout | crypto/src/state_hash.rs:117-127 | the first 32 bytes hashed are the prior hash, the others the block |
| StateHash.GenesisLayout | crypto/src/state_hash.rs:95-100 | the genesis bytes are `KOMMS_STATE_GENESIS_v1.1` and 32 zeros |
| StateHash.SortSorted | crypto/src/state_hash.rs:115-115 | the sort orders by transaction id |
| StateHash.SortGroup | crypto/src/state_hash.rs:115-115 | the sort keeps every group of equal ids complete and in the order given |
| StateHash.SortedUnique | crypto/src/state_hash.rs:115-115 | a sorted list is determined by its groups, so any stable sort gives the same result |
| StateHash.SameSortIff | crypto/src/state_hash.rs:114-115 | two lists sort to the same list if and only if each id has the same events in the same order in both |
| StateHash.PermutationInvariant | crypto/src/state_hash.rs:102-109 | with distinct transaction ids the order of the events given is irrelevant |
| StateHash.RepeatedTxIdOrderMatters | crypto/src/state_hash.rs:102-109 | with a repeated id the order given does reach the bytes hashed |
| StateHash.BlockBytesAreArray | crypto/src/state_hash.rs:117-127 | for bodies that each print one CBOR item the bytes hashed for a block print one array of the sorted items |
| StateHash.BlockBodyAcceptedIff | crypto/src/state_hash.rs:35-42 | for such bodies the hashed body passes the canonical check if and only if every one is in the Komms profile one level down |
| StateHash.PrintedDelimited | crypto/src/state_hash.rs:69-77 | bodies that each print one CBOR item, text keys, floats, tags and any depth included, are never proper prefixes of each other |
| StateHash.BlockBytesDetermineBodies | crypto/src/state_hash.rs:117-127 | where no body is a proper prefix of another, equal hashed bytes mean the same bodies in transaction id order, and conversely |
| StateHash.UndelimitedBodiesAgree | crypto/src/state_hash.rs:69-77 | for any two transaction ids, two blocks of other bodies that agree on the hashed bytes and, whatever the hash, on the state hash |
| StateHash.GenesisIsNoBlock | crypto/src/state_hash.rs:95-128 | byte 32 is zero in the genesis bytes and an array head in those of a block |
| StateHash.PluralityAgreement | crypto/src/state_hash.rs:1-8 | without a collision among the bytes hashed, two chains in which no body is a proper prefix of another have equal state hashes if and only if they have the same history |
| StateHash.PluralityOfPrintedBodies | crypto/src/state_hash.rs:69-77 | in particular two chains whose bodies each print one CBOR item |
| Submit.SortByAmount | src/submit.rs:203-204 | the vector sorted in place is the stable order by descending amount |
| Submit.SortDescends | src/submit.rs:203-204 | that order descends and is a permutation |
| Submit.SortKeepsOrder | src/submit.rs:203-204 | entries of one amount keep the order given |
| Submit.FeeInNumbers | src/submit.rs:48-69 | 111 800 sompi an input, 42 300 an output, 100 a payload byte, 9 400 for the rest, and 170 700 for the documented join event |
| Submit.PickUtxos | src/submit.rs:198-222 | the loop gives the first prefix that seems to pay the relay fee in sompi, and that selection is correct if and only if wrapping never misleads the loop |
| Submit.PrefixIsBest | src/submit.rs:203-204 | no choice of a given number of entries sums to more than that many of the largest |
| Submit.GreedyIsOptimal | src/submit.rs:198-222 | the selection fails only if no choice is feasible, else uses the fewest inputs any choice could, with the largest sum for that many, and accounts for every sompi, if and only if up to the first prefix that pays no shorter one is made to look paid and that one does not wrap |
| Submit.NoOverflowNeverMisleads | src/submit.rs:198-222 | that condition holds whenever the total and the fee for all entries fit 64 bits |
| Submit.OverflowingFeeIsAccepted | src/submit.rs:67-69 | a concrete priority fee that wraps and makes an unpayable selection look paid |
| Submit.OverflowingSumIsMissed | src/submit.rs:208-209 | two concrete entries that pay a huge fee but whose sum wraps, so that the loop gives up |

## Specification functions

These only compute; what they mean is stated by the members of the table above that mention them.

| function | source |
|---|---|
| Cbor.EncodeCborUintHeader | crypto/src/state_hash.rs:135-154 |
| Event.ValidateEvent | protocol/src/lib.rs:826-1146 |
| Fields.CoreField | protocol/src/encode.rs:107-230 |
| Payload.FromReader | protocol/src/lib.rs:531-532 |
| Payload.ParseKommsPayload | protocol/src/lib.rs:1154-1163 |
| Payload.ParseKommsPayloadWithFuture | protocol/src/lib.rs:1170-1188 |
| Signing.SignerPubkeyFromEvent | protocol/src/verify.rs:133-138 |
| Submit.RequiredFee | src/submit.rs:48-69 |

## Left out

- Payload.FromReader: stands for the CBOR library on canonical bytes only; what the library does with non-canonical bytes given directly to `parse_cbor_map` is not part of this model.
- Submit.PickUtxos: an entry is an outpoint and an amount, and the remaining fields of the RPC record are copied through and not modelled; the arithmetic wraps as a release build does, where a debug build would abort.
- Canonical.Cursor.WalkItem: positions are 64-bit, as on the shipped targets; the truncating cast of a length on a 32-bit target is not modelled.
- Encode.EncodeCborMap: the output is an unbounded byte string; an allocation failure of the library is not modelled.
- Error message texts, including the library's text inside the CBOR decoding error.
- SHA-256, BLAKE2b, Ed25519, HMAC, key derivation, AEAD and sealed senders: primitives, or fixed-width concatenations of their inputs.
- `participant_id`, `server_id`, `channel_id`, `message_id` and the two `ref` builders: identities or single concatenations.
- Building, signing and broadcasting the transaction, and the node's own mass calculation.
- Command line, JSON output, hex parsing, RPC reading and the local index reader: plumbing.
