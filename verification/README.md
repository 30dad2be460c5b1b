# QRS protocol core: a verified model

QRS signs documents (SDocs) under self-signed certificates (TCerts) and verifies them offline. Everything
signed is canonical CBOR inside COSE_Sign1. Verifiers pin TCerts, or trust them through attestations signed
by other TCerts configured as CAs, and learn about revocations and blocks through signed statements.

This project models that core and proves its main laws:

- **Wire format** (`Bits`, `CborHeads`, `Utf8`, `Sorting`, `Cbor`, `CborDecoder`, `CborLaws`, `JsDecoder`): the
  deterministic encoder (section 4.2.1 of RFC 8949), the cursor decoder, and the TypeScript decoder beside the
  Python one. A value is a tree; maps keep their insertion order and are compared as finite maps by `Equiv`.
  `WireFormat` spells the bytes out, down to the order of keys, the names and the numbers.
- **Signed objects** (`Ids`, `Cose`, `SignedObjects`, `Statements`): identifiers, COSE_Sign1 (sections 4.2 and
  4.4 of RFC 9052) in this protocol's profile, the `[version, type, data]` envelope, and statements. `Parsing` says,
  as an if-and-only-if over all inputs, what is accepted as what.
- **Stores and services** (`ServiceState`, `MemoryStores`, `Operations`, `Services`, `StoreInvariants`,
  `Permanence`, `Authority`, `Effects`, `ImportLaws`, `Delivery`, `Bundles`): the stores as classes changed in place,
  each service method proved to be a transition of one abstract state, who is trusted and entitled, written over the
  records alone, invariants and safety over all runs of those transitions, and what a statement made on one device
  does on another that imports it.
- **Issuing and verifying** (`Fields`, `Signing`, `IssuanceLaws`, `Verification`, `VerdictLaws`, `ReportLaws`,
  `SecretBinding`, `IssueThenVerify`, `Protocol`): the schema walk and whose value it stores, the verification pipeline
  with its early exits, the exact meaning of its verdict and of every component beside it, and issue-then-verify as an
  if-and-only-if.
- **Persistence and numbering** (`FileStores`, `FileStoreRefinement`, `Cascade`, `Certificates`): the JSON-file
  stores refine the in-memory ones, the mobile app's deletion cascade, and certificate numbers.

Every asynchronous method is one atomic step. Parsing, hashing and signature checks enter the stores and the
pipeline as the functions of the record `ServiceState.Env`, and every statement holds for all of them;
`Protocol.Env` builds that record from the protocol's own parsers, a hash function and a ledger of the
signatures that were made. Where a law needs ideal signatures it says so (`SecretBinding.Ideal`,
`SecretBinding.OneMessageEach`). Thrown exceptions are values of `Bytes.Error`. The clock, the answers of the
person verifying, the private keys and the field engines are parameters.

## What the code does that its documentation does not say

- The TypeScript decoder reads four-byte arguments as signed numbers, so integers from 2^31 to 2^32 - 1 come back
  negative (`JsDecoder.JsRoundTrip`, `JsDecoder.LoweredMeaning`), time stamps after January 2038 among them. The laws
  about messages, objects, statements and issued documents are therefore stated for the decoder as it is: exact
  conditions under which they come back unchanged, and what comes back otherwise. A document issued after January
  2038 under a maximal age looks decades old (`IssueThenVerify.LateDocumentsLookOld`).
- The same reading breaks prospective revocation: a document signed after 2038 passes revocations made before it
  (`IssueThenVerify.LateDocumentsPassRevocations`), and a revocation dated after 2038 refuses documents issued before
  it (`Delivery.LateRevocationsRefuseAll`).
- Assigning to the name `__proto__` of a plain JavaScript object makes no property. The TypeScript decoder therefore
  loses such an entry of a map whose keys are all texts, which the Python decoder keeps (`JsDecoder.ProtoIsDropped`,
  `JsDecoder.ProtoAlone`). A stripped field of that name is not bound by the signature: any answer for it verifies,
  as it does for a stripped field whose name a later one repeats (`SecretBinding.AnswerIsBound`,
  `SecretBinding.ProtoSecretsAreUnbound`). A file store forgets a record of that name when it is opened again
  (`FileStoreRefinement.ProtoBreaksTheFileStore`); ids of imported objects never have it.
- A prospective revocation of a TCert hides a block: an older document passes even when it is blocked
  (`Permanence.RevocationCheckMeaning`).
- A revoker's newer statement replaces its older one whatever its kind, so a retrospective revocation can be
  weakened by its own author, although the TCert stays revoked (`Permanence.RetrospectiveSurvives`,
  `Permanence.RetrospectiveCanBeWeakened`).
- Importing a statement again at once is a no-op except for revocations whose signer key id is empty, and except for
  the history (`ImportLaws.ReimportChangesNothing`). The exception needs a TCert of the empty key id, which
  `addTcert` can leave behind (`ImportLaws.AccumulationIsReachable`). A later repetition can restore what other
  statements replaced in between (`ImportLaws.ImportIsNoOpIff`).
- An attestation and its target can be imported in either order, unless the target replaces other bytes under its
  id (`ImportLaws.AttestationAndTcertCommute`).
- A stripped field that was omitted at issuance is still asked for at verification, and no answer is right, unless
  the field is named `__proto__` (`SecretBinding.SecretsFieldByField`).
- The file store lists other attestations than the in-memory one when an id of a target or a CA contains a bar
  (`FileStoreRefinement.BarsBreakTheFileStore`). Ids of imported objects are made of hexadecimal key ids
  (`Ids.HexHasNoSeparators`), so only a direct `certificateStore.save` or `trustStore.addAttestation` brings such
  an id in.
- The deletion cascade removes one level only (`Cascade.CascadeIsOneLevel`).

## Model

| member | source | states |
|---|---|---|
| CborHeads.PyHeadIsShortestForm | qrs-core-python/src/qrs/cbor.py:42-56 | The shifts, masks and `to_bytes` of the Python head give, for every 64-bit argument, the arithmetic shortest head, and an error for every other integer. |
| CborHeads.JsEncodeHead | qrs-core-js/src/cbor/canonical.ts:56-79 | With `<<`, `>>`, `>>>`, `&` and `|` as 32-bit operators and bytes stored modulo 256, the TypeScript head equals the arithmetic head for every argument, hence the Python one, also where the masks act on negative numbers; out of range is an error. |
| CborHeads.JsByteLoop | qrs-core-js/src/cbor/canonical.ts:72-78 | The backwards byte loop fills the buffer with the big-endian argument. |
| CborHeads.HeadRoundTrip | qrs-core-python/src/qrs/cbor.py:136-155 | Reading a head back gives its major type and argument and advances over exactly its bytes, whatever follows. |
| CborHeads.HeadIsShortest | qrs-core-python/src/qrs/cbor.py:42-56 | No head that reads to an argument is shorter than the encoder's head for it. |
| CborHeads.JsArg8 | qrs-core-js/src/id.ts:124-128 | The shift-and-or loop over eight bytes is the big-endian number. |
| CborHeads.JsArg2IsBigEndian | qrs-core-js/src/cbor/canonical.ts:181-184 | The two-byte argument computed with 32-bit operators is the big-endian number. |
| CborHeads.JsArg4Wraps | qrs-core-js/src/cbor/canonical.ts:185-191 | The four-byte argument is the big-endian number wrapped to a signed 32-bit number. |
| CborHeads.JsArg4AgreesIff | qrs-core-js/src/cbor/canonical.ts:185-191 | It equals the big-endian number exactly when the first byte is below 0x80, and is negative otherwise. |
| Utf8.Utf8RoundTrip | qrs-core-python/src/qrs/cbor.py:81-83 | Strict UTF-8 decoding inverts encoding on every text. |
| WireFormat.StrictUtf8 | qrs-core-python/src/qrs/cbor.py:186-187 | Bytes that decode as text are exactly the encoding of that text: overlong, truncated and surrogate forms are refused. |
| WireFormat.HeadLayout | qrs-core-js/src/cbor/canonical.ts:56-79 | Every head byte by byte: the type in the three high bits, the argument in the five low ones, or after 24 to 27 in one, two, four or eight big-endian bytes. |
| Cbor.EncodeValue | qrs-core-python/src/qrs/cbor.py:65-102 | The recursive printer with its loops produces the canonical bytes of every encodable value and an error for every other one. |
| Cbor.EncodeMap | qrs-core-js/src/cbor/canonical.ts:128-135 | Sorting the encoded entries by key bytes and joining them gives the canonical bytes of the map. |
| Cbor.JoinPairs | qrs-core-js/src/cbor/canonical.ts:130-134 | The joining loop emits every key followed by its value, in order. |
| CborDecoder.ReadValue | qrs-core-python/src/qrs/cbor.py:178-210 | Reading an item always terminates, whatever lengths are claimed: the cursor moves forward and stays inside the input. |
| CborDecoder.Decoder.ReadHeadAt | qrs-core-python/src/qrs/cbor.py:136-155 | The cursor machine reads the head the specification reads and moves its position accordingly. |
| CborDecoder.Decoder.ReadValueAt | qrs-core-python/src/qrs/cbor.py:178-210 | The cursor machine returns the item, or raises the error, that the specification gives at the old position. |
| CborDecoder.Decoder.ReadItemsAt | qrs-core-python/src/qrs/cbor.py:188-189 | The array loop reads the claimed number of items or fails. |
| CborDecoder.Decoder.ReadEntriesAt | qrs-core-python/src/qrs/cbor.py:190-196 | The dictionary loop puts every entry under its key, later ones replacing earlier ones, and rejects unhashable keys. |
| CborDecoder.Decode | qrs-core-python/src/qrs/cbor.py:213-222 | Decoding accepts exactly one item with nothing after it. |
| CborDecoder.ValueSize | qrs-core-python/src/qrs/cbor.py:117-210 | A decoded tree has at most as many nodes as bytes were consumed. |
| WireFormat.OtherFirstBytes | qrs-core-python/src/qrs/cbor.py:136-210 | What is read from first bytes that are never written: tags are skipped, floats keep their bytes, reserved and indefinite lengths and other simple values are errors. |
| CborLaws.ReadBack | qrs-core-python/src/qrs/cbor.py:117-222 | Decoding an encoded value at any place in any input returns it, maps in key order, and advances exactly over its bytes. |
| CborLaws.RoundTrip | qrs-core-python/src/qrs/cbor.py:112-114 | `cbor_decode(cbor_encode(v))` is `v` as a value with finite maps, for every profile value of any depth. |
| CborLaws.EncodingDecidesEquality | qrs-core-js/src/cbor/canonical.ts:86-135 | Two profile values have the same bytes if and only if they are equal up to map insertion order at any depth. |
| CborLaws.PrefixFree | qrs-core-js/src/cbor/canonical.ts:86-135 | Equal concatenations split in one way only: no encoding is a proper prefix of another. |
| CborLaws.MapOrderIrrelevant | qrs-core-js/src/cbor/canonical.ts:128-135 | Any rearrangement of a map's entries gives identical bytes. |
| CborLaws.CanonKeepsBytes | qrs-core-python/src/qrs/cbor.py:92-101 | What the decoder rebuilds encodes to the bytes it was read from. |
| CborLaws.CompareBytes | qrs-core-js/src/cbor/canonical.ts:137-143 | The comparison loop decides the bytewise lexicographic order, and returns zero exactly for equal bytes. |
| CborLaws.KeysDifferBeforeTheyEnd | qrs-core-js/src/cbor/canonical.ts:137-143 | Two distinct keys differ in some byte before either ends, so the length tie-break never decides. |
| WireFormat.MapBytes | qrs-core-js/src/cbor/canonical.ts:128-143 | A map is its head and its entries, each key before its value, in an order in which of any two encoded keys the earlier one has the smaller byte where they first differ. |
| WireFormat.TwoKeys | qrs-core-js/src/cbor/canonical.ts:128-135 | The object `{ b: x, a: y }` is written, to the byte, with `a` first. |
| WireFormat.RepeatedKeys | qrs-core-python/src/qrs/cbor.py:190-196 | A key read again keeps its place and its spelling and takes the later value; no other entry changes. |
| JsDecoder.HeadsAgree | qrs-core-js/src/cbor/canonical.ts:170-197 | On every input the TypeScript head reader has the Python one's outcome, with four-byte arguments wrapped. |
| WireFormat.JsOtherFirstBytes | qrs-core-js/src/cbor/canonical.ts:221-268 | The TypeScript decoder reads these simple values, floats and errors alike; only `undefined` is returned. |
| WireFormat.JsTagsAreSkipped | qrs-core-js/src/cbor/canonical.ts:248-251 | It skips tags, with tag numbers of any length. |
| JsDecoder.DecodersAgree | qrs-core-js/src/cbor/canonical.ts:221-268 | On every input without signed four-byte arguments, byte order marks, ill-formed text, other keys than texts and numbers, `undefined`, and objects with a property `__proto__`, the two decoders return the same value and position or fail alike. |
| JsDecoder.JsRoundTrip | qrs-core-js/src/cbor/canonical.ts:293-298 | For every profile value, decoding its encoding gives it back if and only if it is safe: no integer, length or count with an argument in 2^31 .. 2^32 - 1, no text with a leading byte order mark, no keys but texts and integers, and no key `__proto__` in a map of text keys, at any depth. |
| JsDecoder.JsDecodesImage | qrs-core-js/src/cbor/canonical.ts:221-268 | With safe lengths, texts and keys, and no key `__proto__` in a map of text keys, the decoder returns the same tree with exactly its unsafe integers lowered by 2^32. |
| JsDecoder.ProtoIsDropped | qrs-core-js/src/cbor/canonical.ts:283-291 | A map of text keys with an entry `__proto__` and otherwise safe parts comes back without exactly this entry when its value is a number, a boolean or a text; otherwise the object read gets another prototype. |
| JsDecoder.ProtoAlone | qrs-core-js/src/cbor/canonical.ts:283-291 | The failing input: for every safe primitive, the map with this one entry is read as the empty object, while the Python decoder gives the entry back. |
| JsDecoder.LoweredMeaning | qrs-core-js/src/cbor/canonical.ts:185-191 | A lowered integer is the integer itself exactly when it is safe; otherwise its sign is flipped and it fits 32 bits. |
| Ids.HexRoundTrip | qrs-core-js/src/id.ts:78-87 | Hexadecimal decoding inverts encoding. |
| WireFormat.HexBytes | qrs-core-js/src/id.ts:78-80 | Bytes are written with lower-case digits, the high half first. |
| Ids.SplitInvertsJoin | qrs-core-js/src/signedObject/signedObject.ts:124-154 | Splitting a TCert id gives back key id and number when the number is in 1..255, and an error otherwise. |
| Ids.TcertIdInjective | qrs-core-js/src/signedObject/signedObject.ts:124-126 | Different keys or numbers never share a TCert id. |
| Ids.HexHasNoSeparators | qrs-core-js/src/id.ts:78-80 | Key ids in hexadecimal contain neither the colon of TCert ids nor the bar of store keys. |
| Cose.HeadersReadBack | qrs-core-js/src/cose/cose.ts:102-113 | Encoded protected headers are read to the key id, the TCert number and the algorithm, the latter lowered like every integer. |
| Cose.SignedParsesBack | qrs-core-js/src/cose/cose.ts:49-125 | A signed message parses back to itself if and only if its algorithm and the lengths of its parts are safe. |
| Cose.SignedMessageRebuilt | qrs-core-js/src/cose/cose.ts:131-143 | Verification rebuilds from the parts exactly the bytes that were signed under the same authenticated data. |
| Cose.SigStructureInjective | qrs-core-js/src/cose/cose.ts:70-71 | The signed bytes determine headers, external authenticated data and payload. |
| WireFormat.SignedBytes | qrs-core-js/src/cose/cose.ts:70-71 | The signed bytes, spelled out: an array of the text `Signature1`, the protected headers, the authenticated data and the payload, in this order. |
| WireFormat.MessageBytes | qrs-core-js/src/cose/cose.ts:49-86 | The message on the wire, spelled out: protected headers, empty unprotected headers, payload and the signature of exactly the bytes a verifier rebuilds. |
| WireFormat.HeaderNumbers | qrs-core-js/src/cose/cose.ts:60-64 | Header 1 is the algorithm, -8 for Ed25519 and -7 for ECDSA, 4 the key id, -70001 the TCert number when there is one. |
| Parsing.MessageMeaning | qrs-core-js/src/cose/cose.ts:88-125 | For every input: it decodes to a message if and only if it is an array of four byte strings, the first of which is a map with a number under 1, bytes under 4, and nothing or a number from 1 to 255 under -70001. |
| SignedObjects.ParseInvertsBuild | qrs-core-js/src/signedObject/signedObject.ts:51-107 | Parsing a built object gives its type, algorithm, key id, TCert number and data if and only if its lengths and its data are safe, which excludes text-keyed maps with a key `__proto__`; with safe lengths, texts and keys it gives the data with integers lowered; the signed message is rebuilt in any case. |
| SignedObjects.IntegerSurvivesIff | qrs-core-js/src/signedObject/signedObject.ts:88-93 | An integer property of the data, such as a time, is read lowered, hence unchanged exactly when it is safe. |
| SignedObjects.SmallObjectsAreCarried | qrs-core-js/src/signedObject/signedObject.ts:51-64 | Every built object of less than 2^31 bytes has safe lengths. |
| WireFormat.EnvelopeBytes | qrs-core-js/src/signedObject/signedObject.ts:51-64 | The payload, spelled out: an array of 1, the literal name of the type, and the data as a byte string. |
| Parsing.ObjectMeaning | qrs-core-js/src/signedObject/signedObject.ts:66-107 | For every input: it parses to an object if and only if it is a message whose payload is the version 1, one of the four type names, and data with every property that the type demands, of the kind it demands, under a known algorithm, attributed to the key id in its headers. |
| Statements.TargetRoundTrip | qrs-core-js/src/services/statement.ts:58-87 | A target survives encoding, transport and decoding with its certificate number lowered, and unchanged exactly when that number is safe. |
| Statements.StatementRoundTrip | qrs-core-js/src/services/statement.ts:89-140 | A built statement parses to its id, action, target, time, reason, revocation type, claims, validity and signer if and only if its lengths and data are safe, in the sense of `JsDecoder.JsRoundTrip`; with safe lengths, texts and keys it arrives with integers lowered, its time unchanged exactly when safe; its signed message is rebuilt in any case. |
| WireFormat.StatementNamed | qrs-core-js/src/services/statement.ts:97-103 | The literal names under which a statement carries its id, action, target and time, and the literal name of every action. |
| WireFormat.OptionsNamed | qrs-core-js/src/services/statement.ts:104-107 | Likewise reason, revocation type with its two literal values, claims and validity, each left out when absent. |
| WireFormat.TargetNamed | qrs-core-js/src/services/statement.ts:58-72 | Likewise the three kinds of targets; an empty content hash is left out. |
| Parsing.TargetMeaning | qrs-core-js/src/services/statement.ts:74-87 | For every map: it decodes to a target if and only if its kind is one of the three names and the properties of this kind are there. |
| Parsing.StatementMeaning | qrs-core-js/src/services/statement.ts:114-140 | For every input: it parses to a statement if and only if it is a signed object of that type with these properties under their literal names. |
| MemoryStores.InMemoryCertificateStore.Save | qrs-core-js/src/storage/memoryStores.ts:54-56 | Saving replaces the TCert with that id in its place, or appends it. |
| MemoryStores.InMemoryCertificateStore.FindByKeyId | qrs-core-js/src/storage/memoryStores.ts:61-65 | The TCerts of a key are found in store order. |
| MemoryStores.InMemoryTrustStore.AddAttestation | qrs-core-js/src/storage/memoryStores.ts:199-207 | A CA's attestation of a target replaces its earlier one in place, or is appended. |
| MemoryStores.InMemoryRevocationStore.AddRevokedTcert | qrs-core-js/src/storage/memoryStores.ts:98-110 | A revoker's entry replaces its earlier one in place; entries naming no revoker accumulate. |
| MemoryStores.InMemoryRevocationStore.GetRevokedTcert | qrs-core-js/src/storage/memoryStores.ts:111-120 | The answer is the first entry of the list sorted by severity and date. |
| MemoryStores.InMemoryRevocationStore.AddBlockedSdoc | qrs-core-js/src/storage/memoryStores.ts:150-153 | Blocking records the entry and appends to the statement history. |
| MemoryStores.InMemoryRevocationStore.RemoveBlockedSdoc | qrs-core-js/src/storage/memoryStores.ts:160-163 | Unblocking removes the entry and appends to the history. |
| MemoryStores.EffectiveRevocationIsWorst | qrs-core-js/src/storage/memoryStores.ts:111-120 | The effective revocation is a recorded one that no recorded one exceeds: retrospective before prospective, then the latest; it exists exactly when there is any. |
| Services.TrustService.Pin | qrs-core-js/src/services/trustService.ts:54-57 | Pinning adds exactly this TCert when it is held, and fails without a change otherwise. |
| Services.TrustService.AddCa | qrs-core-js/src/services/trustService.ts:63-66 | A held TCert becomes a CA; otherwise an error and no change. |
| Services.TrustService.Attest | qrs-core-js/src/services/trustService.ts:83-126 | The new stores and the result or error of an attestation, with every check in its order, over a statement made of exactly this target, content hash, time and claims. |
| Services.TrustService.AddTcert | qrs-core-js/src/services/trustService.ts:129-140 | The target TCert is saved only when its id matches, then attested; a failed attestation keeps the saved TCert. |
| Services.TrustService.ResolveTrust | qrs-core-js/src/services/trustService.ts:149-170 | The state is invalid exactly for distrusted TCerts, else valid exactly for pinned ones or ones with a trust path, which `Authority.ResolvedMeaning` says over the records alone; whenever there is a path the CA of the first one is named. |
| Services.TrustService.IsTrustedCa | qrs-core-js/src/services/trustService.ts:173-179 | True exactly for a pinned or configured CA that is neither distrusted nor revoked (`Authority.CaAndAttestationMeaning`). |
| Services.TrustService.IsValidAttestation | qrs-core-js/src/services/trustService.ts:182-222 | True exactly when the CA is held, self-signed, trusted and its key unrevoked, the statement binds target, hash and signer, and its signature verifies (`Authority.CaAndAttestationMeaning`). |
| Authority.ResolvedMeaning | qrs-core-js/src/services/trustService.ts:149-222 | Over the records alone: valid are exactly the TCerts, not distrusted, that are pinned or have an unwithdrawn attestation whose CA is pinned or configured, not distrusted, unrevoked with its key, and held as a self-signed TCert, and which refers to a statement that verifies under the CA's key and binds the hash of the content held. |
| Authority.CaAndAttestationMeaning | qrs-core-js/src/services/trustService.ts:173-222 | The two checks decide the same rules, the withdrawal apart. |
| Authority.TrustNeedsStandingCa | qrs-core-js/src/services/trustService.ts:173-179 | An unpinned TCert none of whose attesting CAs is pinned or configured, undistrusted and unrevoked cannot be verified. |
| Authority.DismissedCaEndsTrust | qrs-core-js/src/services/trustService.ts:59-74 | Unpinning and unconfiguring, or distrusting, the only CA that attested an unpinned TCert ends the trust in it. |
| Authority.OthersCannotVouch | qrs-core-js/src/services/onlineService.ts:83-119 | An imported attestation that is attributed to a TCert which is neither pinned nor configured as a CA makes no TCert trusted. |
| Authority.AttestMeaning | qrs-core-js/src/services/trustService.ts:83-126 | A configured CA that has not attested the target yet signs exactly the content hash of the target held, and exactly this record is added. |
| Authority.AttestRefused | qrs-core-js/src/services/trustService.ts:83-126 | In every other case nothing is attested and nothing changes, with the error of the first reason. |
| Authority.AddTcertMeaning | qrs-core-js/src/services/trustService.ts:129-140 | The given TCert is saved if and only if it is one of the id attested. |
| Authority.DecisionsMeaning | qrs-core-js/src/services/trustService.ts:54-80 | Each of the six decisions of the user changes its own list at its own id, and nothing else; pinning and configuring need the TCert. |
| Services.RevocationService.RevokeAttestation | qrs-core-js/src/services/revocationService.ts:63-83 | A CA withdraws an attestation it made, with a statement made of exactly the requested action, target, time and reason; the new stores or the error. |
| Services.RevocationService.RevokeTcert | qrs-core-js/src/services/revocationService.ts:86-112 | The key owner or an attesting trusted CA revokes a TCert, with a statement made of exactly the requested action, target, time and reason; the new stores or the error (`Authority.RevokeTcertMeaning`). |
| Services.RevocationService.RevokeKey | qrs-core-js/src/services/revocationService.ts:115-135 | Only the owner revokes a key, with a statement made of exactly the requested action, target, time and reason; the new stores or the error. |
| Services.RevocationService.BlockSdoc | qrs-core-js/src/services/revocationService.ts:138-159 | The issuer or an attesting trusted CA blocks a stored document, with a statement made of exactly the requested action, target, time and reason; the new stores or the error (`Authority.BlockMeaning`). |
| Services.RevocationService.UnblockSdoc | qrs-core-js/src/services/revocationService.ts:162-186 | The same authority lifts a block, with a statement made of exactly the requested action, target, time and reason; the new stores or the error (`Authority.BlockMeaning`). |
| Services.RevocationService.CheckRevocation | qrs-core-js/src/services/revocationService.ts:189-207 | Key first, then the effective TCert revocation, then the block list. |
| Services.RevocationService.IsAuthorizedCa | qrs-core-js/src/services/revocationService.ts:210-230 | True exactly when some attestation of the target by this key has a held, parseable, unrevoked, not distrusted CA that is pinned or configured (`Authority.EntitledMeaning`). |
| Authority.EntitledMeaning | qrs-core-js/src/services/revocationService.ts:210-230 | Over the records alone: entitled are exactly the owner of the key, and a signer whose own, unrevoked key is the one in a recorded attestation of this TCert whose CA is held, pinned or configured, undistrusted and unrevoked. |
| Authority.RevokeTcertMeaning | qrs-core-js/src/services/revocationService.ts:86-112 | A signer entitled in this sense records exactly this revocation under its key; everybody else gets the authorization error and changes nothing. |
| Authority.BlockMeaning | qrs-core-js/src/services/revocationService.ts:138-186 | Likewise for blocking and unblocking a stored document of the key and TCert number that it names. |
| Authority.UnknownDocuments | qrs-core-js/src/services/revocationService.ts:138-150 | A document that is not stored or names no TCert is neither blocked nor unblocked. |
| Authority.FallenCaLosesAuthority | qrs-core-js/src/services/revocationService.ts:210-230 | A CA that is distrusted, revoked, or no longer pinned nor configured, or whose key is revoked, revokes and blocks nothing any more on the strength of its attestations. |
| Authority.RevokeKeyMeaning | qrs-core-js/src/services/revocationService.ts:115-135 | Exactly the owner revokes a key, and exactly this record is added. |
| Authority.WithdrawMeaning | qrs-core-js/src/services/revocationService.ts:63-83 | Exactly a TCert with a recorded attestation of the target withdraws it, under the joint key of the two ids. |
| Authority.MalformedSubjects | qrs-core-js/src/services/revocationService.ts:63-90 | Ids that are none are refused before anything else. |
| Services.OnlineService.FindSigner | qrs-core-js/src/services/onlineService.ts:54-72 | The loop's preferred and fallback signers are the last verifying CA and the first verifying TCert of the key, which `Authority.AttributionMeaning` says over the certificates held. |
| Services.OnlineService.ImportStatement | qrs-core-js/src/services/onlineService.ts:38-168 | The new stores and the outcome of importing any bytes, for every action and target kind; `Authority.UnsignedIsRefused` and the laws after it say which. |
| Services.OnlineService.ImportTcert | qrs-core-js/src/services/onlineService.ts:171-192 | The new stores and the outcome of importing any bytes as a TCert. |
| Authority.UnsignedIsRefused | qrs-core-js/src/services/onlineService.ts:54-79 | A statement is refused as unsigned, changing nothing, if and only if it verifies under the public key of no held TCert of the key it names; an applied one verified under one. |
| Authority.AttributionMeaning | qrs-core-js/src/services/onlineService.ts:54-72 | Of the held TCerts under whose key it verifies, a statement is attributed to the last one configured as a CA, and without such to the first one. |
| Authority.ImportedAttestMeaning | qrs-core-js/src/services/onlineService.ts:83-119 | What an attributed attestation records or why it is refused: the hash is that of the content held, or the stated one while none is held. |
| Authority.ImportedRevocationMeaning | qrs-core-js/src/services/onlineService.ts:120-153 | What an attributed revocation or withdrawal records or why it is refused; one without a kind is retrospective. |
| Authority.ImportedBlockMeaning | qrs-core-js/src/services/onlineService.ts:154-168 | What an attributed block or unblock records, and that TCerts are not added by statements. |
| Authority.ImportTcertMeaning | qrs-core-js/src/services/onlineService.ts:171-192 | Which bytes become a TCert, under which id, and for which reason others are refused. |
| StoreInvariants.ReachableIsConsistent | qrs-core-js/src/storage/memoryStores.ts:98-120 | In every reachable state there is at most one attestation per (target, CA), one revocation per (TCert, revoker key), and one certificate per id. |
| StoreInvariants.ApplyKeeps | qrs-core-js/src/storage/memoryStores.ts:199-207 | Every operation keeps that, whatever it is given. |
| Permanence.RunExtends | qrs-core-js/src/storage/memoryStores.ts:98-143 | No run forgets a revoked key, a withdrawn attestation, a revoked TCert, or any of its revokers. |
| Permanence.RevocationCheckMeaning | qrs-core-js/src/services/revocationService.ts:189-207 | The lifecycle check refuses a document exactly when its key is revoked, or an entry is retrospective, or no entry is later than it, or there is no entry and it is blocked. |
| Permanence.RevokedKeyIsFinal | qrs-core-js/src/services/revocationService.ts:190-193 | Documents of a revoked key are refused after every run. |
| Permanence.WithdrawnIsFinal | qrs-core-js/src/services/trustService.ts:156-195 | An attestation that is withdrawn, or whose CA's TCert or key is revoked, is never a trust path again, and that TCert is never a trusted CA again. |
| Permanence.OnlyNewAttestationsRestoreTrust | qrs-core-js/src/services/trustService.ts:149-170 | When all attestations of a TCert are withdrawn, later trust comes from pinning or from a record that was not there. |
| Permanence.RetrospectiveSurvives | qrs-core-js/src/storage/memoryStores.ts:98-110 | After a new entry a TCert is retrospectively revoked if and only if the entry says so or another revoker did. |
| Permanence.RetrospectiveCanBeWeakened | qrs-core-js/src/services/revocationService.ts:86-112 | For every key, environment and dates: a run of two operations from empty stores, the owner's retrospective and then prospective revocation of a TCert, after which older documents are acceptable again. |
| Effects.WithdrawalIsForGood | qrs-core-js/src/services/revocationService.ts:63-83 | Only an attesting CA withdraws an attestation, and after that it is no trust path in any later state. |
| Effects.TcertRevocationTakesEffect | qrs-core-js/src/services/revocationService.ts:86-112 | A revocation is made by the owner of the key or an attesting CA in good standing, recorded under its key, and keeps the TCert from being a trusted CA ever after. |
| Effects.TcertRevocationRefuses | qrs-core-js/src/services/revocationService.ts:194-203 | Right after it every document, or for a prospective one every document later than all entries, is refused. |
| Effects.KeyRevocationIsForGood | qrs-core-js/src/services/revocationService.ts:115-135 | Only the owner revokes a key, and no later state accepts a document of it. |
| Effects.AppliedStatementsTakeEffect | qrs-core-js/src/services/onlineService.ts:81-163 | An applied statement has the effect its action names on its target, attributed to the TCert that verified it. |
| ImportLaws.TrustIgnoresAttestationOrder | qrs-core-js/src/services/trustService.ts:149-170 | The resolved state is the same for every order of the attestations. |
| ImportLaws.OthersCannotRemovePath | qrs-core-js/src/services/trustService.ts:156-162 | No other CA's attestation removes an existing trust path. |
| ImportLaws.AttestEarnsTrust | qrs-core-js/src/services/trustService.ts:83-126 | After a successful attestation the target is trusted if and only if it is not distrusted and either was trusted before or the CA is in good standing. |
| ImportLaws.SignerMeaning | qrs-core-js/src/services/onlineService.ts:54-72 | A statement is attributed whenever it verifies under the public key of a held TCert of its key, to such a TCert, and to a configured CA when one of them is. |
| ImportLaws.OnlySignedStatementsApply | qrs-core-js/src/services/onlineService.ts:73-79 | A refused import changes nothing; an applied one verified under the public key of a held TCert of the key it names; no import touches certificates, pins, CAs or distrust. |
| ImportLaws.OnlySelfSignedTcertsImport | qrs-core-js/src/services/onlineService.ts:171-192 | A TCert is imported exactly when it is self-signed under the key its id names, is then found under its id, and changes nothing else. |
| ImportLaws.ReimportChangesNothing | qrs-core-js/src/services/onlineService.ts:81-163 | Importing a statement again immediately changes nothing but the history, if and only if it is not a TCert revocation that names no signer key. |
| ImportLaws.ImportIsNoOpIff | qrs-core-js/src/services/onlineService.ts:38-163 | In any state, so also after other operations since the first time, importing a statement changes nothing but the history if and only if it is refused or the record it writes is the one that is there. |
| ImportLaws.AccumulationIsReachable | qrs-core-js/src/services/trustService.ts:129-140 | Such a statement can be reached from empty stores: `addTcert` saves a TCert of the empty key id before its attestation fails, and every import of a revocation signed by it then adds an entry. |
| ImportLaws.NewCertKeepsSigner | qrs-core-js/src/services/onlineService.ts:54-72 | A newly imported TCert that is no CA does not change who a statement is attributed to. |
| ImportLaws.AttestationAndTcertCommute | qrs-core-js/src/services/onlineService.ts:83-119 | Importing an attestation and a TCert that leaves its signer the same in either order resolves the same trust for every TCert, also with a missing or wrong content hash, if and only if the TCert does not replace other bytes that the attestation does not bind while being its target's only support. |
| ImportLaws.NewTcertCommutes | qrs-core-js/src/services/onlineService.ts:83-119 | With a TCert whose id was not held and is no CA, the order never matters. |
| Delivery.RevocationArrives | qrs-core-js/src/services/onlineService.ts:120-134 | A TCert revoked by a service on one device is, on every device that imports the statement and attributes it to a held TCert, revoked with the same kind, reason and key at the date as it is read, is no trusted CA, and for a retrospective revocation has all its documents refused. |
| Delivery.FirstRevocationDecides | qrs-core-js/src/services/onlineService.ts:120-134 | When it is the first entry about the TCert, a document is refused afterwards if and only if its key is revoked, the revocation is retrospective, or the date as it is read is not later than the document. |
| Delivery.LateRevocationsRefuseAll | qrs-core-js/src/services/revocationService.ts:194-203 | A prospective revocation dated 2^31 to 2^32 - 1 that arrives as the first entry refuses every document read with a time from 1970 on, also those issued before it. |
| Delivery.KeyRevocationArrives | qrs-core-js/src/services/onlineService.ts:135-139 | A key revoked by its owner is revoked wherever the statement is imported, after every further run. |
| Delivery.BlockArrives | qrs-core-js/src/services/onlineService.ts:154-163 | Blocking or unblocking a document on one device does the same on the importing one, to that document only. |
| Delivery.AttestationArrives | qrs-core-js/src/services/onlineService.ts:83-119 | An attestation made on one device gives the same record, its date and claims as they are read, on an importing device that holds the same target, under the TCert it is attributed to there, and is refused by one that holds another TCert under the id. |
| Bundles.BundleOrderIrrelevant | qrs-mobile-app/lib/process.ts:43-88 | Bundles that list the same statements, issued at distinct times, in different orders reach the same stores. |
| Bundles.TcertOrderIrrelevant | qrs-mobile-app/lib/process.ts:43-88 | Its TCerts may be listed in any order too: when they have distinct ids and no statement has two TCerts that could be named as its signer, the stores reached are the same up to the order of the certificates. |
| Bundles.LatestStatementDecides | qrs-mobile-app/lib/process.ts:43-88 | After a bundle a document is blocked if and only if the accepted block or unblock statement with the greatest time blocks it; without any, as before. |
| Bundles.StatementsKeepSigners | qrs-core-js/src/services/onlineService.ts:81-163 | Statements never change certificates, CAs, pins, distrust or documents. |
| Bundles.BundleProcessor.HandleObject | qrs-mobile-app/lib/process.ts:66-84 | One object changes the stores and is reported as its kind demands. |
| Bundles.BundleProcessor.Arrange | qrs-mobile-app/lib/process.ts:46-65 | Selecting the three kinds with filter loops and sorting the statements gives the specified order. |
| Bundles.OrderedMeaning | qrs-mobile-app/lib/process.ts:46-65 | That order has exactly the TCerts, statements and documents of the bundle, in this order of kinds; TCerts and documents keep their order, statements are sorted by time, and those of one time keep theirs. |
| Bundles.BundleProcessor.ProcessBundle | qrs-mobile-app/lib/process.ts:43-88 | The loop reaches the stores of importing all TCerts and then all statements in time order, and reports every object. |
| Bundles.DocumentsSeeTheWholeBundle | qrs-mobile-app/lib/process.ts:61-65 | Every document of a bundle is judged with all its TCerts and statements taken into account. |
| Bundles.ItemMeaning | qrs-mobile-app/lib/process.ts:66-84 | What is reported as successful: a TCert exactly when it is self-signed under its own key id, a statement only when it verifies under a held TCert of the key it names, a document exactly when every check of the verification succeeds. |
| Bundles.StatementItemMeaning | qrs-mobile-app/lib/process.ts:72-77 | Of the attributed statements, exactly those whose action applies to their target and which nothing held contradicts. |
| Bundles.SortTimeIsIssuedAt | qrs-mobile-app/lib/process.ts:50-58 | The time a statement is sorted by is the time its parser reports; how that relates to the time signed is `Statements.StatementRoundTrip`. |
| Fields.BindingsExclude | qrs-core-js/src/fields/types.ts:61-76 | No field is bound both ways, an undeclared secret input is stripped, and only declared fields are bound inline. |
| Fields.BindingMeaning | qrs-core-js/src/fields/types.ts:61-76 | Which fields are stripped and which bound inline, by their literal types and declared binding. |
| Fields.EntryMeaning | qrs-core-js/src/fields/types.ts:22-49 | What a schema entry says, under the literal names of its properties. |
| Fields.SchemaMeaning | qrs-core-js/src/services/signingService.ts:71-75 | The schema is the non-empty list under its name, entry by entry. |
| Signing.SigningService.WalkSchema | qrs-core-js/src/services/signingService.ts:79-109 | The loop produces one slot per field and the object of stripped values, to which the name `__proto__` adds nothing, or the first error; `IssuanceLaws.SuppliedIsIssued` says whose value each slot holds. |
| Signing.SigningService.IssueSdoc | qrs-core-js/src/services/signingService.ts:40-129 | The issued document or the error, and the stores with the document saved exactly on success; what is issued and what refused is said by the laws of `IssuanceLaws`. |
| Signing.StoredValuesAlign | qrs-core-js/src/services/signingService.ts:75-109 | An issued document stores one value per schema field; position i is null for a stripped or omitted field and else the engine's encoding of the value given for field i, of an inherited one without it, or of the default without both. |
| IssuanceLaws.IssuerSuffices | qrs-core-js/src/services/signingService.ts:40-75 | A held TCert with a number and a schema, which verifies under the algorithm it declares and is in its validity bounds, may issue, under the key id of the key it contains. |
| IssuanceLaws.IssuerNeeds | qrs-core-js/src/services/signingService.ts:40-75 | Nothing else may. |
| IssuanceLaws.UntimelyIsRefused | qrs-core-js/src/services/signingService.ts:59-69 | Before `validAfter` and from `validBefore` on nothing is issued. |
| IssuanceLaws.SuppliedIsIssued | qrs-core-js/src/services/signingService.ts:82-110 | The value given for a field, else an inherited one, else its default, is what its engine accepted and what is stored, or signed as text and not stored; without any the field is not required and stores null. |
| IssuanceLaws.GivenIsStored | qrs-core-js/src/services/signingService.ts:87-109 | The value given under a field's name is the one stored, whatever default the field declares. |
| IssuanceLaws.GivenIsSigned | qrs-core-js/src/services/signingService.ts:87-122 | The value given for a stripped field is the one signed under its name, unless a later stripped field has that name. |
| IssuanceLaws.SecretsAreAad | qrs-core-js/src/services/signingService.ts:121-124 | Without secrets the message is signed without authenticated data; with some, over their canonical map. |
| IssuanceLaws.IssuanceFails | qrs-core-js/src/services/signingService.ts:82-119 | With a TCert that may issue, issuing fails when some field has an unknown type, lacks a required value, or has a value its engine refuses, or when the key is missing; otherwise exactly when signing fails. |
| Signing.PayloadIgnoresSecrets | qrs-core-js/src/services/signingService.ts:75-124 | Two issuances at one time that differ only on stripped fields have byte-identical payloads and headers. |
| SecretBinding.AadDecides | qrs-core-js/src/services/signingService.ts:121-122 | Two sets of secrets have the same authenticated data if and only if they are the same map; no secrets differ from any. |
| SecretBinding.OnlySignedAadVerifies | qrs-core-js/src/cose/cose.ts:131-143 | With ideal signatures a message verifies under exactly the authenticated data it was signed with. |
| SecretBinding.SignatureBindsSecrets | qrs-core-js/src/services/verificationService.ts:180-206 | With ideal signatures the signature check of an issued document succeeds if and only if the object of the entered secrets is the one of the secrets it was issued with; neither holds a secret of the name `__proto__`. |
| SecretBinding.SecretsByName | qrs-core-js/src/services/verificationService.ts:180-192 | For every schema the two objects of secrets are the same if and only if, under the name of every stripped field but `__proto__`, the last text given is the last text entered. |
| SecretBinding.SecretsFieldByField | qrs-core-js/src/services/verificationService.ts:180-192 | With distinct names that is so if and only if every stripped field whose name is not `__proto__` was given at issuance and is entered unchanged. |
| SecretBinding.AnswerIsBound | qrs-core-js/src/services/verificationService.ts:180-206 | For every schema and every accepted set of answers: another answer for a stripped field is accepted too if and only if the field is named `__proto__` or a later stripped field has its name. |
| SecretBinding.ProtoSecretsAreUnbound | qrs-core-js/src/services/signingService.ts:104-122 | The failing schemas: when every stripped field is named `__proto__`, no secret is signed and any answers pass the signature check. |
| Verification.VerificationService.Finalize | qrs-core-js/src/services/verificationService.ts:291-306 | The document is invalid if and only if one of the five components is; valid if and only if all five are and no context was missing or denied; and nothing else of the result changes. |
| Verification.VerificationService.Verify | qrs-core-js/src/services/verificationService.ts:73-109 | The whole pipeline returns the report, or throws the error, of the specification whose verdict `VerdictIsExact` characterises, and whose other components the laws of `ReportLaws` do. |
| Verification.VerificationService.CheckTcert | qrs-core-js/src/services/verificationService.ts:110-152 | The TCert stage: its signature, key id, window and the age of the document, each as `ReportLaws.TcertReports` and the laws after it say. |
| Verification.VerificationService.CheckLifecycle | qrs-core-js/src/services/verificationService.ts:154-178 | The trust and revocation stages with their early exits. |
| Verification.VerificationService.CheckContent | qrs-core-js/src/services/verificationService.ts:180-207 | The secret and signature stage with its early exits. |
| Verification.VerificationService.CollectSecrets | qrs-core-js/src/services/verificationService.ts:180-192 | The loop collects the secrets by name, to which the name `__proto__` adds nothing, and the names of those not given. |
| Verification.VerificationService.CheckEachField | qrs-core-js/src/services/verificationService.ts:210-274 | The field loop accumulates results, schema state and context, or throws. |
| Verification.VerificationService.CheckOne | qrs-core-js/src/services/verificationService.ts:216-271 | What one field contributes, in every branch. |
| VerdictLaws.FieldVerdictMeaning | qrs-core-js/src/services/verificationService.ts:216-271 | A field counts as accepted exactly when it is stripped, absent and optional, or matched and passed by its engine; it refutes exactly when required and missing, mismatched, or failed. |
| VerdictLaws.VerdictIsExact | qrs-core-js/src/services/verificationService.ts:73-306 | Over all inputs, stores and answers the verdict is valid if and only if every check succeeds, and invalid if and only if something is positively wrong; the bounds of the TCert's validity are read under their own names. |
| ReportLaws.EarlyReports | qrs-core-js/src/services/verificationService.ts:73-121 | The whole report when the input is no document, has no TCert number, or its TCert is not held or malformed. |
| ReportLaws.TcertReports | qrs-core-js/src/services/verificationService.ts:122-152 | The whole report when the TCert is not self-certified, out of its bounds, or the document past the maximal age. |
| ReportLaws.NotYetValid | qrs-core-js/src/services/verificationService.ts:132-136 | Before the TCert's `validAfter` the TCert and the document are invalid. |
| ReportLaws.Expired | qrs-core-js/src/services/verificationService.ts:137-141 | From its `validBefore` on likewise. |
| ReportLaws.TooOldIsInvalid | qrs-core-js/src/services/verificationService.ts:143-150 | Past its `sdocMaxAgeSeconds` the document is invalid for its schema, and the TCert is not blamed. |
| ReportLaws.TimelyIsValid | qrs-core-js/src/services/verificationService.ts:130-152 | When all three are kept, a self-certified TCert is reported valid. |
| ReportLaws.LifecycleReports | qrs-core-js/src/services/verificationService.ts:154-178 | The whole report when the TCert is distrusted, the document has no time, is revoked or blocked, or there is no schema. |
| ReportLaws.SecretReports | qrs-core-js/src/services/verificationService.ts:180-207 | Unanswered secrets leave the document open, and the warnings name exactly these; a signature that does not cover the secrets refutes it. |
| ReportLaws.FieldReports | qrs-core-js/src/services/verificationService.ts:210-274 | Every field is reported in order, under its name and caption, with the state its branch gives; the schema is invalid exactly when a field is refuted, the context is what the last field that lacked some lacked, and checking throws exactly at fields without an engine or with stored values that cannot be shown. |
| VerdictLaws.NullAnswersAreNeverValid | qrs-core-js/src/services/verificationService.ts:182-241 | A requested secret, bound value or position answered with null never gives a valid document. |
| VerdictLaws.LocationNeedsPosition | qrs-core-js/src/fields/locationField.ts:68-72 | The location engine cannot verify without a position, whatever its distance test. |
| VerdictLaws.RevokedKeyNeverValid | qrs-core-js/src/services/revocationService.ts:189-193 | Once a key is revoked, no document of it verifies as valid after any further operations. |
| VerdictLaws.ValidPredatesRevocation | qrs-core-js/src/services/revocationService.ts:194-203 | A valid document of a revoked TCert faces prospective entries only and is older than the latest. |
| IssueThenVerify.IdentityAcceptsBack | qrs-core-js/src/fields/selectField.ts:21-32 | Engines that store the text they are given and check it in the same way satisfy the engine law. |
| IssueThenVerify.IssuedParses | qrs-core-js/src/services/signingService.ts:111-125 | The issued bytes parse to the issued document if and only if its lengths, its time and its stored values are safe, in the sense of `JsDecoder.JsRoundTrip`; with safe lengths, texts and keys they carry the issuer's identity, the signed message and the stored values with integers lowered, and the time exactly when it is safe. |
| IssueThenVerify.IssuedVerifies | qrs-core-js/src/services/verificationService.ts:73-306 | An issued document, whatever its time, is valid if and only if its TCert is authentic, in its window and trusted, it is young enough by the time that is read, nothing is revoked or blocked, every stripped field is answered and the answers are the signed secrets under every name but `__proto__`, the engines accept the stored values as they are read, and the inline values match; the time read is the one signed exactly when that is safe. |
| IssueThenVerify.IssueThenVerifyIsValid | qrs-core-js/src/services/signingService.ts:40-129 | With the TCert pinned and nothing revoked, safe stored values that the engines accept back, and every secret and inline value entered again, an issued document verifies as valid. |
| IssueThenVerify.LateDocumentsLookOld | qrs-core-js/src/services/verificationService.ts:140-152 | With a maximal age below 2^32 seconds, a document signed at a time from 2^31 to 2^32 - 1 is never valid, not even when it is issued. |
| IssueThenVerify.LateDocumentsPassRevocations | qrs-core-js/src/services/revocationService.ts:194-203 | A document signed at a time from 2^31 to 2^32 - 1 passes every prospective revocation of its TCert that is dated from 1970 on: it is valid if and only if all other conditions hold. |
| Protocol.EnvIsIdeal | qrs-core-js/src/signedObject/signedObject.ts:110-117 | The protocol's own services over a signature ledger satisfy the ideal-signature law and read objects with the protocol's parser. |
| Protocol.AppliedWasSigned | qrs-core-js/src/services/onlineService.ts:54-79 | Over the ledger: an applied statement carries a signature that was made, on exactly the bytes rebuilt from it without authenticated data, with the key that a held TCert of the key it names contains. |
| Protocol.ServicesMeaning | qrs-core-js/src/id.ts:49-64 | Key and document ids are the first sixteen bytes of a SHA-256; the content hash of a TCert is the hash of its payload under the algorithm it names, if known. |
| Protocol.ContentHashBinds | qrs-core-js/src/signedObject/signedObject.ts:133-142 | With a hash that never collides, TCerts of one hash algorithm share their content hash exactly when their payloads are equal. |
| Protocol.StatementsAreObjects | qrs-core-js/src/services/statement.ts:114-140 | A statement that parses is a signed object that parses, attributed to the key id in its headers. |
| FileStores.JsonFileStore.Set | qrs-core-js/src/storage/fileStores.ts:66-69 | Setting keeps the place of an existing key, and the file then holds what a plain object keeps of memory. |
| FileStores.JsonFileStore.Delete | qrs-core-js/src/storage/fileStores.ts:71-73 | Deleting removes exactly this key, and a file that held what a plain object keeps of memory still does. |
| FileStores.FindInObject | qrs-core-js/src/storage/fileStores.ts:55-59 | A plain object filled from the records has for every name what they have, but nothing under `__proto__`. |
| FileStores.ObjectIsFixed | qrs-core-js/src/storage/fileStores.ts:41-59 | Reading a written file and writing it again changes nothing more, so array indices come first and the other names keep their order from then on. |
| FileStores.JsonFileStore.constructor | qrs-core-js/src/storage/fileStores.ts:32-53 | Opening a store reads what its file holds; a missing or unreadable file counts as empty. |
| FileStores.KeyFindsItself | qrs-core-js/src/storage/fileStores.ts:366-371 | An attestation key matches its own target and CA if and only if neither contains a bar. |
| FileStoreRefinement.FileTrustStore.AddAttestation | qrs-core-js/src/storage/fileStores.ts:339-351 | The first record with this target and CA is replaced under its old key, or a new record is added; the file follows. |
| FileStoreRefinement.FileTrustStore.GetAttestations | qrs-core-js/src/storage/fileStores.ts:352-357 | The records of a target in file order. |
| FileStoreRefinement.FileTrustStore.Reopened | qrs-core-js/src/storage/fileStores.ts:305-314 | A store opened again on the same files holds the records that plain objects keep, in their order. |
| FileStoreRefinement.FileRevocationStore.AddRevokedTcert | qrs-core-js/src/storage/fileStores.ts:232-242 | The list of the TCert is changed as in memory and written to its file. |
| FileStoreRefinement.FileRevocationStore.GetRevokedTcert | qrs-core-js/src/storage/fileStores.ts:243-251 | The same worst entry as in memory. |
| FileStoreRefinement.FileRevocationStore.AddBlockedSdoc | qrs-core-js/src/storage/fileStores.ts:281-284 | The block and the keyed history record are written. |
| FileStoreRefinement.FileRevocationStore.Reopened | qrs-core-js/src/storage/fileStores.ts:206-231 | Likewise a revocation store. |
| FileStoreRefinement.AddRecordRefines | qrs-core-js/src/storage/fileStores.ts:339-357 | Adding a record in the single file is the in-place replacement in its target's own list and leaves the other targets alone. |
| FileStoreRefinement.TrustStoresAgree | qrs-core-js/src/storage/fileStores.ts:300-381 | After any operations and reopenings the file and in-memory trust stores answer every query alike, attestations in the same order, for ids without bars in attestations and other than `__proto__` elsewhere. |
| FileStoreRefinement.RevocationStoresAgree | qrs-core-js/src/storage/fileStores.ts:200-294 | Likewise the revocation stores, for all ids but `__proto__`; of the document history the file holds exactly the latest statement of each document, time and action. |
| FileStoreRefinement.TrustAnswers | qrs-core-js/src/storage/fileStores.ts:300-381 | The file store, run through any operations and reopened on its files at any points, answers pinned, CA, distrusted and the attestations as the in-memory store after the same operations, for the same ids. |
| FileStoreRefinement.RevocationAnswers | qrs-core-js/src/storage/fileStores.ts:200-294 | Likewise the file revocation store, for the effective revocation of a TCert, a key, a withdrawal and a block, for the same ids. |
| FileStoreRefinement.FiledHistoryIsLatest | qrs-core-js/src/storage/fileStores.ts:281-294 | What the file finds under a history key is the latest statement with that key. |
| FileStoreRefinement.BarsBreakTheFileStore | qrs-core-js/src/storage/fileStores.ts:339-371 | The two stores list the same attestations of a target after every two by a CA if and only if neither id contains a bar. |
| FileStoreRefinement.ProtoBreaksTheFileStore | qrs-core-js/src/storage/fileStores.ts:55-59 | A pinned id is still pinned after reopening if and only if it is not `__proto__`; in memory it always is. |
| Cascade.AppStorage.FindOrphans | qrs-mobile-app/lib/stores.ts:326-332 | The orphans are the distinct targets of the deleted TCert that are not pinned and that no other TCert attests. |
| Cascade.AppStorage.KeepForeign | qrs-mobile-app/lib/stores.ts:345-353 | The loop keeps exactly the lists of surviving TCerts with entries of other signers. |
| Cascade.AppStorage.RemoveTcertCascade | qrs-mobile-app/lib/stores.ts:323-370 | Rewriting the stored lists and records one after the other gives the whole new storage, and the ids returned. |
| Cascade.RemovedExactly | qrs-mobile-app/lib/stores.ts:325-334 | Removed are exactly the TCert itself and the unpinned targets that it alone attested. |
| Cascade.OrphansOnce | qrs-mobile-app/lib/stores.ts:326-334 | The deleted TCert is returned first, and every orphan once. |
| Cascade.ListsLeft | qrs-mobile-app/lib/stores.ts:336-343 | Every stored list loses exactly the removed TCerts and keeps its order. |
| Cascade.ForeignMeaning | qrs-mobile-app/lib/stores.ts:345-346 | Which entries go with a TCert: those recorded under its id, and, of entries without one, those of its key. |
| Cascade.KeyPartMeaning | qrs-mobile-app/lib/stores.ts:324-324 | The key of an id is what precedes its last colon, and without one all but its last character. |
| Cascade.AttestationsLeft | qrs-mobile-app/lib/stores.ts:336-336 | Exactly the attestations neither issued by the deleted TCert nor about a removed one are left. |
| Cascade.RevocationsLeft | qrs-mobile-app/lib/stores.ts:345-351 | The revocation entries left about a TCert are exactly those of other signers, in their order, there are none about a removed one, and no list is left empty. |
| Cascade.PinnedSurvive | qrs-mobile-app/lib/stores.ts:337-343 | A pinned TCert other than the deleted one is in the certificates, CAs, distrusted and archived lists afterwards exactly when it was before, and stays pinned. |
| Cascade.SurvivorsAreSupported | qrs-mobile-app/lib/stores.ts:329-331 | Every surviving target of the deleted TCert is pinned or attested by another CA afterwards. |
| Cascade.OthersUntouched | qrs-mobile-app/lib/stores.ts:345-368 | Of the blocks, key revocations and document statements exactly those of other signers stay; a list of entries about a surviving TCert that are all of other signers stays as it is. |
| Cascade.OtherWithdrawalsUntouched | qrs-mobile-app/lib/stores.ts:357-362 | A withdrawal stays if and only if its CA is another one, its target survives and another signed it. |
| Cascade.CascadeTwice | qrs-mobile-app/lib/stores.ts:323-370 | A second deletion changes nothing and removes only the id itself. |
| Cascade.CascadeIsOneLevel | qrs-mobile-app/lib/stores.ts:326-336 | An orphan's own attestations stay exactly when their targets survive. |
| Certificates.CertificateService.PickNumber | qrs-core-js/src/services/certificateService.ts:93-100 | The loop finds the least unused number in 1..255, and none exactly when all are used. |
| Certificates.CertificateService.CreateTcert | qrs-core-js/src/services/certificateService.ts:90-139 | The new store and the number given, or the error. |
| Certificates.CreateIsFresh | qrs-core-js/src/services/certificateService.ts:90-139 | A new TCert has the least free number, an id that was not held, and is appended: none is ever replaced. |
| Certificates.FailsOnlyWhenExhausted | qrs-core-js/src/services/certificateService.ts:90-139 | Creation fails if and only if all 255 numbers of the key are used or the TCert cannot be built for the least free one, keeping the store; when building succeeds, exactly in the first case. |
| Certificates.NumbersAreDistinct | qrs-core-js/src/services/certificateService.ts:90-139 | Over every run two TCerts of one key get different numbers. |
| Certificates.NumbersCountUp | qrs-core-js/src/services/certificateService.ts:90-100 | From an empty store the numbers of a key are 1, 2, 3 and so on up to 255. |
| Certificates.OnlyNumbersRunOut | qrs-core-js/src/services/certificateService.ts:90-139 | When building succeeds, a creation in a run from an empty store fails if and only if 255 creations for its key succeeded before. |
| Certificates.CreatedIdsSplit | qrs-core-js/src/signedObject/signedObject.ts:145-154 | The ids that are produced split back into key id and number. |

## Left out

- CborDecoder.ReadValue: floats keep their raw bytes, because their numeric value is outside the profile; as dictionary keys they are compared by those bytes.
- Parsing.MessageMeaning: a float of integral value, which TypeScript does not tell from the integer, counts as another value; so do the following three.
- Parsing.ObjectMeaning: likewise.
- Parsing.TargetMeaning: likewise.
- Parsing.StatementMeaning: likewise.
- JsDecoder.DecodersAgree: gives the TypeScript decoder in functional form only, since its cursor machine is the Python one with other heads; the branches where its cursor would move backwards, where ill-formed text is replaced, where an object gets another prototype, and `undefined` end in `Outside`; plain objects with integer-like keys are not reordered, because maps are compared as finite maps.
- JsDecoder.JsRoundTrip: strings of 2^31 to 2^32 - 1 bytes make the cursor move backwards, which ends in `Outside` and counts as not given back; what such a decoder reads after that is not modelled.
- IssueThenVerify.IssuedVerifies: asks through `Deliverable` that lengths, texts and keys are as the decoder expects them; other documents do not come back as they were issued.
- IssueThenVerify.IssueThenVerifyIsValid: asks through `EnginesAcceptBack` that engines accept what they stored, which text and number fields that normalise their input may not; `IssuedVerifies` does without that law.
- Services.TrustService.Attest: loading the private key, building the statement from its draft and checking it is one function, and every parse failure is the same error.
- Services.TrustService.AddTcert: likewise.
- Services.OnlineService.ImportStatement: parsing either succeeds or not, so the two wordings of that refusal are one; the statement id is not repeated in the answer, and every algorithm has a provider.
- ImportLaws.ReimportChangesNothing: covers the immediate repetition; `ImportIsNoOpIff` covers every later one.
- FileStoreRefinement.FileTrustStore.Reopened: the JSON and base64url text of a record is taken to read back as written, including claims.
- FileStoreRefinement.FileRevocationStore.Reopened: likewise.
- FileStores.JsonFileStore.constructor: the text of a file is its list of records; a file that names a record `__proto__`, which the store itself never writes, or lists array indices late is read but not counted as in step with memory until it is written.
- Verification.VerificationService.Verify: messages are not modelled, and the pipeline's one method is split by stage.
- Certificates.CertificateService.CreateTcert: building, signing and checking the TCert for the chosen number is a parameter, and so are the checks of the field list before it; numbers in ids are decimal digits, other spellings that `Number` accepts count as unused.
- Ids.SplitInvertsJoin: splitting reads decimal digits only.
- Services.TrustService.ResolveTrust: reports the attestation whose CA is named, not the display name in its claims.
- Bundles.BundleProcessor.ProcessBundle: works on decoded objects and the core's in-memory stores; the mobile store looks certificates up by the key id inside them, which is the same for ids made of it.
- Store methods return values: that a list handed out is the live one is not captured, and callers do not change it.
- Signing.SigningService.WalkSchema: a member that a record of values inherits, such as `constructor`, is represented by a value the engines see; `FieldEnv.inherited` says which names have one.
- SecretBinding.SignatureBindsSecrets: secrets are strings of Unicode scalars; texts with lone surrogates, which UTF-8 encoding maps to U+FFFD and so to each other, are not modelled.
- The recursion and memory limits of the platforms are not modelled: values of any depth and size are encoded and decoded.
- Schema entries that are not records, names in them that are not texts, and validity bounds that are not integers, are not modelled; TCert creation refuses them.
- Signatures, hashes, key generation and key storage are parameters; the ledger stands for signing.
- Listing queries, endpoint configuration, the attachment service, HTTP services, and the user interfaces are not modelled.
- Field engines are records of functions; their calendar, distance, normalisation and decimal rules are not modelled.
