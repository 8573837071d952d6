# KubeBao: cipher, sealed messages, policies, templates and key cache

A Dafny model of five parts of KubeBao, a Kubernetes KMS provider and secrets operator over OpenBao, with proofs of
what they promise.

* **The block cipher Kuznyechik** (`internal/kuznyechik`). The code folds substitution and linear layer into tables and
  decrypts with the equivalent inverse cipher. `Rfc7801.dfy` is the cipher of RFC 7801 as plain functions over
  `Galois.dfy`, `Linear.dfy` and `SBox.dfy`; `Tables.dfy` and `KuznyechikCipher.dfy` are the code on 64-bit words, proved
  to compute those functions. `IterationConstants.dfy`, `KnownSchedule.dfy` and `KnownAnswer.dfy` prove the constants of the
  code and its test vector, step by step, from `Vectors.dfy`, which ties the arithmetic to bit-vectors for evaluation.
* **The AEAD built on it** (`internal/crypto`). `CtrMode.dfy`, `Subkeys.dfy`, `Cmac.dfy` and `AeadSpec.dfy` define counter
  mode, CMAC and the format `version || iv || ciphertext || tag` over any cipher and hold the main theorems;
  `Slices.dfy`, `GostCtr.dfy`, `GostMac.dfy` and `KuznyechikAead.dfy` are the in-place loops over shared buffers.
* **Policies as HCL** (`api/v1alpha1`). `HclString.dfy` is the escaping, `Policy.dfy` a printer and an independent parser,
  `PolicyWriter.dfy` the nested writing loops.
* **Secret templates** (`internal/controller`). `Rewriting.dfy` is the rewrite-until-nothing-changes loop and when it
  ends, `Template.dfy` the loops over the maps. `Substitution.dfy` cuts templates into text and references,
  `TemplateMeaning.dfy` says what rendering them means, `TemplateConditions.dfy` exactly when it returns and when the order
  of a map does not matter.
* **The key cache** (`internal/kms`). `KeyStore.dfy` is a key request as a function, `KeyManager.dfy` and `Provider.dfy` the
  objects with their buffers, `KeyProtocol.dfy` all interleavings of their steps.

`Binary.dfy`, `Bytes.dfy`, `BigEndian.dfy`, `Words.dfy` and `Strings.dfy` are the common ground. Bytes are integers below
256 and XOR is defined on their binary digits; bit-vectors serve only to work out concrete blocks. Strings are sequences
of characters; for text that Go handles as bytes read a character as a byte.

`dafny verify dfyconfig.toml` checks everything.

## Results worth knowing

* A read error counts as "no key": `internal/kms/key_manager.go:102` assumes the record is missing, but any error of the
  KV client takes that branch. With an empty cache and creation allowed, one transient error replaces a stored key, and
  what was sealed under the old one is from then on opened under another key (`KeyProtocol.FailedReadReplacesKey`). The
  key is safe from this in every run exactly if `createIfNotExists` is false (`KeyProtocol.RecordSurvivesEveryRunIff`); if reads fail only when there is no
  record, it is safe in any case (`KeyProtocol.SafeRun`).
* `applyTemplate` need not return, and its result may depend on the iteration order of a map. A secret value that
  contains its own placeholder, without being it, keeps `replaceAll` going for ever
  (`TemplateConditions.SelfReferenceNeverReturns`); a value that is the placeholder of another key is expanded in one order
  and not in another (`TemplateConditions.OrderMatters`). For templates and values made of references to brace-free keys
  and of text without `{{` and without a `{` at the end:
  * a template is rendered in every order if and only if no chain of references from it ends in a key whose value feeds
    it (`TemplateConditions.AlwaysReturnsIff`);
  * it is rendered in every order, always to the same text, if and only if no value it refers to holds a placeholder that
    would be replaced by something else (`TemplateConditions.SettledIff`; for the whole call
    `TemplateConditions.ApplyTemplateIff`), and then the text is the simultaneous substitution.
* For any value whose ends cannot overlap a placeholder, the empty value and pieces of the placeholder included, a call
  of `replaceAll` returns if and only if the text or the value is free of the placeholder, or the value is the placeholder
  (`Rewriting.HaltsIff`).
* The code increments only the low 64 bits of the counter, so gamma blocks repeat with period 2^64 and not earlier
  (`CtrMode.CountersCoincide`).

## Model
| member | source | states |
|---|---|---|
| `SBox.SSInv` | internal/kuznyechik/tables.go:9-29 | the two transcribed boxes undo each other: substituting after inverse substitution is the identity on all 256 bytes (the other order is `SBox.SInvS`) |
| `SBox.SLayerInverse` | internal/kuznyechik/tables.go:9-29 | the byte-wise substitution layers over a whole block are inverse to each other, in both orders |
| `Galois.MulIsProductModulo` | internal/kuznyechik/tables.go:31-2117 | the multiplication behind the linear layer is the remainder of the polynomial product modulo x^8+x^7+x^6+x+1 (section 4.1.2 of RFC 7801) |
| `LinearLayer.LInverse` | internal/kuznyechik/tables.go:31-2117 | L = R^16 and its inverse undo each other on every block (sections 4.2 and 4.3 of RFC 7801) |
| `LinearLayer.LLinear` | internal/kuznyechik/tables.go:31-2117 | L and its inverse distribute over XOR: the fact that makes lookup tables possible at all |
| `IterationConstants.ImpulseResponse` | internal/kuznyechik/tables.go:2119-2120 | L on the block with a one in its last byte gives the sixteen bytes of the first constant of the code, which fixes every coefficient of the linear form |
| `IterationConstants.IterationConstant` | internal/kuznyechik/tables.go:2119-2128 | each of the 32 iteration constants of section 4.4 of RFC 7801 is the one that stands in the array `c` |
| `KnownAnswer.OtherEntries` | internal/kuznyechik/tables.go:9-18 | the 26 entries of the box that the test vector and its key schedule do not reach |
| `Tables.AdditiveByPlaces` | internal/kuznyechik/cipher.go:19-35 | any XOR-linear map of blocks is the XOR of its values on the single bytes in their places |
| `Tables.LsIsLS` | internal/kuznyechik/cipher.go:19-23 | sixteen table lookups compute L after S on every block |
| `Tables.IlsIsInverseLayers` | internal/kuznyechik/cipher.go:25-29 | the inverse tables compute inverse L after inverse S (not inverse S after inverse L) on every block |
| `Tables.IlssIsLInv` | internal/kuznyechik/cipher.go:31-35 | looking up the substituted bytes in the inverse tables cancels the substitution and leaves inverse L alone |
| `Words.StoreLoad` | internal/kuznyechik/cipher.go:82-85 | little-endian loading of two 64-bit words and storing them are inverse, both ways |
| `Words.LoadWordValue` | internal/kuznyechik/cipher.go:82-85 | a word is the little-endian number of its eight bytes |
| `Words.StoreXor` | internal/kuznyechik/cipher.go:142-143 | XOR of words is XOR of the blocks they stand for |
| `KuznyechikCipher.Isi` | internal/kuznyechik/cipher.go:37-44 | the shifting loop applies the inverse box to each of the eight bytes of a word |
| `KuznyechikCipher.OrIntoPlace` | internal/kuznyechik/cipher.go:41 | the `|=` of a byte shifted above the bytes already there adds it |
| `KuznyechikCipher.FIsFeistelStep` | internal/kuznyechik/cipher.go:46-55 | `f` on four words is one Feistel step of the key schedule on two blocks |
| `KuznyechikCipher.Fk` | internal/kuznyechik/cipher.go:57-64 | the loop takes a pair that is `ist` steps from some start to the pair eight steps further (every pair has such a start, `Rfc7801.StepsInverse`) |
| `KuznyechikCipher.ScheduleFromPairs` | internal/kuznyechik/cipher.go:82-110 | the ten word pairs filled in by `NewCipher` are the schedule of section 4.4 of RFC 7801 |
| `KuznyechikCipher.Cipher.constructor` | internal/kuznyechik/cipher.go:86-115 | the object holds the RFC schedule for encryption and, for decryption, the same keys pushed through inverse L (all but the first) |
| `KuznyechikCipher.NewCipher` | internal/kuznyechik/cipher.go:78-117 | a key of any other length than 32 is refused with its length; otherwise a cipher with the schedule of the key |
| `KuznyechikCipher.EncryptRoundsAreRfc` | internal/kuznyechik/cipher.go:142-170 | nine table rounds on words are the nine LSX rounds and the final key of section 4.5.1 of RFC 7801 |
| `KuznyechikCipher.Cipher.Encrypt` | internal/kuznyechik/cipher.go:135-173 | dst becomes the RFC encryption of the old src, also when both are the same buffer |
| `KuznyechikCipher.FirstDecryptStep` | internal/kuznyechik/cipher.go:182-184 | the opening of decryption puts the state under inverse L |
| `KuznyechikCipher.DecryptStep` | internal/kuznyechik/cipher.go:185-208 | each middle round keeps the state equal to inverse L of what plain inverse rounds would hold: the telescoping step |
| `KuznyechikCipher.LastDecryptStep` | internal/kuznyechik/cipher.go:209-212 | `isi` and the untransformed first key undo the last plain round |
| `KuznyechikCipher.Cipher.Decrypt` | internal/kuznyechik/cipher.go:175-215 | the equivalent inverse cipher writes the RFC decryption of section 4.5.2 of RFC 7801 for every block |
| `KuznyechikCipher.Cipher.ZeroKey` | internal/kuznyechik/cipher.go:124-133 | all twenty round keys are zero afterwards |
| `Rfc7801.EncryptDecrypt` | internal/kuznyechik/cipher.go:135-215 | for all round keys and blocks, decryption inverts encryption and encryption inverts decryption |
| `KnownAnswer.KnownEncryption` | internal/kuznyechik/cipher_test.go:10-26 | under the schedule of the test key the test block encrypts to the expected bytes (section 5.5 of RFC 7801): boxes, coefficients, constants and the order of the rounds, in one value |
| `KnownAnswer.KnownDecryption` | internal/kuznyechik/cipher_test.go:28-44 | the expected bytes decrypt to the test block |
| `KnownAnswer.EncryptTestBlock` | internal/kuznyechik/cipher_test.go:10-44 | the object made by `NewCipher` from the test key writes exactly these bytes, both ways |
| `Rfc7801.FInverse` | internal/kuznyechik/cipher.go:46-55 | one schedule step is a bijection of pairs, with the inverse given |
| `Rfc7801.PairDeterminesKey` | internal/kuznyechik/cipher.go:86-110 | running the steps backwards from any of the five round-key pairs yields the master key |
| `Rfc7801.EveryPairHasAKey` | internal/kuznyechik/cipher.go:86-110 | every pair of blocks is the j-th round-key pair of some master key |
| `Rfc7801.DistinctKeysDifferEverywhere` | internal/kuznyechik/cipher.go:86-110 | different master keys differ in each of the five pairs |
| `BigEndian.ValueSuccessor` | internal/crypto/kuznyechik_mgm.go:164-171 | carrying a byte-wise increment adds one to the big-endian value, modulo its range |
| `Slices.CtrIncrement` | internal/crypto/kuznyechik_mgm.go:164-171 | the loop with early return leaves the counter with its low eight bytes incremented and the high eight as they were |
| `CtrMode.CounterValue` | internal/crypto/kuznyechik_mgm.go:146-171 | after k increments the high half is that of the vector and the low half is its value plus k modulo 2^64 |
| `CtrMode.CountersCoincide` | internal/crypto/kuznyechik_mgm.go:146-171 | two counters of a message are equal if and only if their indices agree modulo 2^64 |
| `CtrMode.GammaBlocksDistinct` | internal/crypto/kuznyechik_mgm.go:146-153 | under an invertible cipher the first 2^64 gamma blocks are pairwise different |
| `GostCounter.KuznyechikPermutes` | internal/kuznyechik/cipher.go:135-215 | the only cipher fact the modes use: Kuznyechik permutes the blocks |
| `GostCounter.CtrBlock` | internal/crypto/kuznyechik_mgm.go:147-158 | one turn: a full or short block is XORed with its gamma in place, nothing beyond it changes, the counter moves on |
| `GostCounter.GostCtr` | internal/crypto/kuznyechik_mgm.go:141-160 | dst holds, byte by byte, src XOR gamma for every length and for dst equal to src; bytes around dst stay |
| `CtrMode.CtrInvolution` | internal/crypto/kuznyechik_mgm.go:141-160 | counter mode applied twice with the same vector gives back the input |
| `CtrMode.CtrOfOneBlock` | internal/crypto/kuznyechik_mgm.go:141-160 | the first block, or a shorter message, is XORed with the enciphered vector |
| `CtrMode.CtrOfMore` | internal/crypto/kuznyechik_mgm.go:141-160 | a longer message is its first block XORed so, then counter mode of the rest from the vector with one more in its low 64 bits |
| `Slices.XorBytes` | internal/crypto/kuznyechik_mgm.go:274-278 | XOR up to the shortest of the three lengths, with dst allowed to be either source; the rest of the buffer stays |
| `Slices.ShiftLeftOne` | internal/crypto/kuznyechik_mgm.go:264-271 | the downward loop with its overflow bit computes the one-bit left shift of a buffer of any length, also in place; a longer dst keeps its end |
| `BigEndian.ShiftLeftDoubles` | internal/crypto/kuznyechik_mgm.go:264-271 | that shift is twice the big-endian value modulo 2^(8n) |
| `Subkeys.DoubleIsTimesX` | internal/crypto/kuznyechik_mgm.go:236-246 | shift and conditional XOR with 0x87 multiply by x in GF(2^128) |
| `Subkeys.DoubleCoefficients` | internal/crypto/kuznyechik_mgm.go:236-246 | coefficient by coefficient: the modulus is x^128+x^7+x^2+x+1 |
| `Subkeys.DoubleLinear` | internal/crypto/kuznyechik_mgm.go:236-246 | doubling distributes over XOR |
| `Subkeys.DoubleInjective` | internal/crypto/kuznyechik_mgm.go:236-246 | doubling is injective |
| `Subkeys.SubkeysDistinct` | internal/crypto/kuznyechik_mgm.go:231-249 | K1 and K2 are non-zero, and different from each other, if and only if the encryption of the zero block is not zero |
| `Subkeys.SubkeyValues` | internal/crypto/kuznyechik_mgm.go:236-246 | K1 is x times and K2 x^2 times the encrypted zero block in GF(2^128) |
| `GostMac.GenerateSubkeys` | internal/crypto/kuznyechik_mgm.go:231-249 | the two fresh buffers hold K1 and K2, with the numbers x and x^2 times the encrypted zero block |
| `GostMac.FillBlockPartial` | internal/crypto/kuznyechik_mgm.go:300-316 | from any cursor over any parts, empty ones included, the next bytes of the concatenation are copied, as many as asked for or as there are, and the cursor stands behind them |
| `GostMac.FillBlock` | internal/crypto/kuznyechik_mgm.go:281-297 | the same for a whole block |
| `GostMac.TotalLength` | internal/crypto/kuznyechik_mgm.go:180-183 | the length of the concatenation |
| `GostMac.MacRound` | internal/crypto/kuznyechik_mgm.go:199-201 | one chaining turn: cipher of state XOR block |
| `GostMac.MacPrefix` | internal/crypto/kuznyechik_mgm.go:192-203 | after the loop the state is the chaining value of all blocks but the last and the cursor stands at byte 16 times the block index |
| `GostMac.MacLast` | internal/crypto/kuznyechik_mgm.go:205-223 | complete, partial and empty last blocks with the right subkey and padding yield the tag |
| `GostMac.GostCmac` | internal/crypto/kuznyechik_mgm.go:177-228 | the tag depends on the concatenation alone and equals the recursive CMAC (sections 6.1 and 6.2 of NIST SP 800-38B) for every split and every length |
| `Cmac.MacBlockInjective` | internal/crypto/kuznyechik_mgm.go:198-221 | for messages of one length, what enters the cipher at position i is equal if and only if the i-th segments are |
| `Cmac.PadInjective` | internal/crypto/kuznyechik_mgm.go:213-219 | padded short blocks are equal if and only if the unpadded ones are, of whatever lengths below 16 |
| `Cmac.PadValue` | internal/crypto/kuznyechik_mgm.go:213-219 | padding is a one bit and then zeros: as a number (2n+1) times a power of two |
| `Cmac.TagOfOneBlock` | internal/crypto/kuznyechik_mgm.go:205-223 | the tag of a whole block and of a short or empty one, written out with marker and doubled zero block |
| `Cmac.TagOfBlockAndShort` | internal/crypto/kuznyechik_mgm.go:192-223 | the tag of one whole and one short block, written out |
| `Cmac.TagFolds` | internal/crypto/kuznyechik_mgm.go:198-203 | the first of two or more blocks may be enciphered and added to the second: with the two rows above this fixes the tag of every message |
| `Cmac.ChainDiffers` | internal/crypto/kuznyechik_mgm.go:198-203 | if two messages differ in block i alone, the chaining values agree up to i and differ everywhere after it |
| `Cmac.TagDetectsBlockChange` | internal/crypto/kuznyechik_mgm.go:198-223 | two messages that differ in one aligned block never have the same tag |
| `Cmac.ShortEndsDiffer` | internal/crypto/kuznyechik_mgm.go:205-223 | two messages with equally many blocks, short last ones and the same bytes before have the same tag if and only if they are equal, also when the lengths differ |
| `AeadSpec.OpenSeal` | internal/crypto/kuznyechik_mgm.go:90-134 | opening inverts sealing for every plaintext and vector; the overhead is 33 bytes |
| `AeadSpec.OpenAcceptsExactlySealed` | internal/crypto/kuznyechik_mgm.go:112-133 | p is returned if and only if the input is the sealed form of p under the vector it carries |
| `AeadSpec.OpenErrors` | internal/crypto/kuznyechik_mgm.go:112-124 | which error is returned, each if and only if: too short; other version (with the byte seen); right frame but not the sealed form of anything |
| `AeadSpec.SealInjective` | internal/crypto/kuznyechik_mgm.go:90-109 | equal outputs come from equal vectors and plaintexts |
| `AeadSpec.TamperedBlockRejected` | internal/crypto/kuznyechik_mgm.go:112-124 | any change inside one aligned 16-byte block of vector and ciphertext is rejected as an authentication failure |
| `AeadSpec.TamperedTagRejected` | internal/crypto/kuznyechik_mgm.go:121-124 | any other tag is rejected |
| `AeadSpec.ShortEndRejected` | internal/crypto/kuznyechik_mgm.go:112-124 | a message whose short last block, of vector and ciphertext, was changed in bytes or length is rejected |
| `AeadSpec.AppendedBytesRejected` | internal/crypto/kuznyechik_mgm.go:112-124 | bytes appended to a short last block of the ciphertext are rejected, zero bytes included |
| `AeadSpec.CutBytesRejected` | internal/crypto/kuznyechik_mgm.go:112-124 | so are messages with bytes cut from it |
| `KuznyechikAead.HashInputInjective` | internal/crypto/kuznyechik_mgm.go:254-261 | the bytes hashed for a subkey determine both the domain and the master key |
| `KuznyechikAead.SubkeyInputs` | internal/crypto/kuznyechik_mgm.go:61-88 | the two subkeys are the hash of the 22 literal bytes of their domain, a zero byte and the master key; these inputs differ |
| `KuznyechikAead.SubkeysApart` | internal/crypto/kuznyechik_mgm.go:254-261 | subkeys of any domains and keys are equal if and only if the hash does not tell their inputs apart, and the inputs are equal only for equal domains and keys |
| `KuznyechikAead.NewAead` | internal/crypto/kuznyechik_mgm.go:61-88 | any key length but 32 is refused; otherwise the two ciphers hold the schedules of the hashes of the literal domain bytes, a zero byte and the master key |
| `KuznyechikAead.Crypt` | internal/crypto/kuznyechik_mgm.go:95-96 | counter mode into a fresh buffer |
| `KuznyechikAead.TagOf` | internal/crypto/kuznyechik_mgm.go:98 | the tag over vector and ciphertext handed over as two parts |
| `KuznyechikAead.Aead.Encrypt` | internal/crypto/kuznyechik_mgm.go:90-109 | a fresh buffer with the sealed message for the vector drawn, or the failure of the random source |
| `KuznyechikAead.Aead.Decrypt` | internal/crypto/kuznyechik_mgm.go:112-134 | the buffer and error results are those of the specification on the bytes of the input slice |
| `HclString.EscapeIsSinglePass` | api/v1alpha1/baopolicy_types.go:208-215 | five whole-string replacements in sequence equal one map over the characters |
| `HclString.EscapeText` | api/v1alpha1/baopolicy_types.go:208-215 | the five escapes, character by character |
| `HclString.ParseEscaped` | api/v1alpha1/baopolicy_types.go:208-215 | reading an escaped literal up to its closing quote gives back the string, whatever follows |
| `HclString.EscapeInjective` | api/v1alpha1/baopolicy_types.go:208-215 | literals are equal if and only if the strings are |
| `HclString.EscapedLiteralIsSafe` | api/v1alpha1/baopolicy_types.go:208-215 | inside the quotes there is no raw line break, carriage return or tab, and every quote follows an odd run of backslashes |
| `Policy.Tails` | api/v1alpha1/baopolicy_types.go:147-201 | no absent part of a rule can be mistaken for a present one: the parts follow one another in rising rank, told from their first four characters |
| `Policy.AllowedBack` | api/v1alpha1/baopolicy_types.go:149-162 | the pairs of a map, listed in any order, give back the map |
| `Policy.ParseRulePrinted` | api/v1alpha1/baopolicy_types.go:131-201 | one rule reads back, whatever text follows |
| `Policy.ParsePrinted` | api/v1alpha1/baopolicy_types.go:128-205 | the text of a policy reads back as the same rules, for all strings and all iteration orders |
| `Policy.EqualTextsEqualPolicies` | api/v1alpha1/baopolicy_types.go:128-205 | equal texts come from equal policies |
| `Policy.ListText` | api/v1alpha1/baopolicy_types.go:137-145 | the text of a list, literally |
| `Policy.EntriesText` | api/v1alpha1/baopolicy_types.go:149-162 | the text of the entries of a map, literally |
| `Policy.RuleText` | api/v1alpha1/baopolicy_types.go:131-201 | the text of a whole rule, every header and bracket of it literal |
| `PolicyWriter.WriteList` | api/v1alpha1/baopolicy_types.go:137-145 | the loop with its separator writes the quoted list |
| `PolicyWriter.WriteAllowedEntries` | api/v1alpha1/baopolicy_types.go:149-162 | the range loop writes one entry for each key, in some order of the keys |
| `PolicyWriter.WriteDenied` | api/v1alpha1/baopolicy_types.go:166-174 | the block of denied parameters, left out when there are none |
| `PolicyWriter.WriteRule` | api/v1alpha1/baopolicy_types.go:132-201 | all parts of a rule in their order, the optional ones only when present |
| `PolicyWriter.ToHCL` | api/v1alpha1/baopolicy_types.go:128-205 | the text written is the printed policy for some iteration orders, and parses back to the rules |
| `Rewriting.IndexOf` | internal/controller/baosecret_controller.go:344-351 | the first occurrence, or -1 exactly if there is none |
| `Rewriting.FixedPoint` | internal/controller/baosecret_controller.go:331-337 | a turn changes nothing if and only if there is no occurrence or target and replacement are equal |
| `Rewriting.OutcomeIs` | internal/controller/baosecret_controller.go:329-341 | whatever bound shows that the loop ends, the result is the same |
| `Rewriting.RewriteAll` | internal/controller/baosecret_controller.go:329-341 | where the loop halts it returns the outcome of the rewriting, free of the target unless target and replacement are equal |
| `Rewriting.NothingLeft` | internal/controller/baosecret_controller.go:329-341 | however the loop ends, also across the borders of replacements no occurrence is left |
| `Rewriting.RarerCharacterHalts` | internal/controller/baosecret_controller.go:329-341 | if some character is rarer in the replacement than in the target, the loop ends within as many turns as the text has of it |
| `Rewriting.SelfFeedingNeverHalts` | internal/controller/baosecret_controller.go:329-341 | if the replacement properly contains the target and the text contains it, the loop never ends |
| `Rewriting.DetachedIsSinglePass` | internal/controller/baosecret_controller.go:329-341 | for a replacement that cannot overlap or swallow a match, the rewriting is one left-to-right pass |
| `Rewriting.DetachedOutcome` | internal/controller/baosecret_controller.go:329-341 | for such a replacement, free of the target, the call returns what one left-to-right pass makes of the text |
| `Rewriting.ShorterHalts` | internal/controller/baosecret_controller.go:329-341 | a replacement shorter than the target ends the loop within as many turns as the text has characters |
| `Rewriting.HaltsIff` | internal/controller/baosecret_controller.go:329-341 | for a replacement whose ends cannot overlap a match the call returns if and only if the text or the replacement is free of the target, or both are equal |
| `Template.RenderTemplate` | internal/controller/baosecret_controller.go:304-308 | the inner loop applies the replacements in some order of the keys |
| `Template.RenderInto` | internal/controller/baosecret_controller.go:302-311 | the outer loop sets exactly the keys of the templates, each to a rendering of its own template |
| `Template.ApplyTemplate` | internal/controller/baosecret_controller.go:292-326 | which keys the result has and where each value comes from: Data over StringData over the input data |
| `Template.PlaceholderText` | internal/controller/baosecret_controller.go:306 | the placeholder of a key, literally |
| `Substitution.ContainsIffReferred` | internal/controller/baosecret_controller.go:304-307 | in a template a placeholder occurs exactly where a segment refers to its key: nothing else can combine to one |
| `Substitution.OneKeyFilled` | internal/controller/baosecret_controller.go:305-308 | one call fills every reference to its key with the value, references to other keys included, and ends, unless the key is referred to and feeds itself |
| `TemplateMeaning.KeysFilled` | internal/controller/baosecret_controller.go:304-308 | on a settled template, after any sequence of keys exactly the references to those keys are filled; unknown ones stay |
| `TemplateMeaning.SubstituteTexts` | internal/controller/baosecret_controller.go:304-308 | filling all references at once is the simultaneous substitution on the text |
| `TemplateMeaning.SettledTemplateRendering` | internal/controller/baosecret_controller.go:303-309 | a settled template always renders, and to the simultaneous substitution and nothing else, in every order |
| `TemplateConditions.SettledIff` | internal/controller/baosecret_controller.go:303-309 | a template renders in every order and to one text if and only if no value it refers to holds a placeholder whose own value is something else |
| `TemplateConditions.AllTemplatesIff` | internal/controller/baosecret_controller.go:303-309 | this holds for all templates at once if and only if no value at all holds such a placeholder |
| `TemplateConditions.AlwaysReturnsIff` | internal/controller/baosecret_controller.go:303-309 | a template renders in every order, to whatever text, if and only if no chain of references from it ends in a key that feeds itself |
| `TemplateConditions.ApplyTemplateMeaning` | internal/controller/baosecret_controller.go:292-326 | if the templates that decide a value are settled, the result of the call is one fixed map: simultaneous substitution, Data over StringData over the input data |
| `TemplateConditions.ApplyTemplateIff` | internal/controller/baosecret_controller.go:292-326 | the call returns in every order and always with the same map if and only if the templates that decide a value are settled and the overridden ones return |
| `TemplateConditions.SelfReferenceNeverReturns` | internal/controller/baosecret_controller.go:304-308 | a value that holds its own placeholder, without being it, makes the loop over the keys spin in some order on every text with that placeholder |
| `TemplateConditions.OrderMatters` | internal/controller/baosecret_controller.go:304-308 | the input that shows it: a value that is the placeholder of another key is expanded in one order and not in the other |
| `KeyStore.GetOrCreateAgrees` | internal/kms/key_manager.go:61-138 | a request keeps the cache in agreement with the record and hands out what the record holds |
| `KeyStore.ParseCases` | internal/kms/key_manager.go:141-162 | each failure and each success of reading a record, if and only if: no key field; not base64; any length but 32; version 1 when there is none |
| `KeyStore.NewRecordFields` | internal/kms/key_manager.go:118-121 | a new record has version 1 and decodes to its key |
| `KeyStore.RequestCases` | internal/kms/key_manager.go:61-138 | when a request yields which key, or fails for want of permission, randomness or a write, each if and only if |
| `KeyManager.Manager.ParseKeyData` | internal/kms/key_manager.go:141-162 | the three failures in their order, version 1 by default, and the key in a new buffer of 32 bytes |
| `KeyManager.Manager.FromCache` | internal/kms/key_manager.go:62-71 | a copy in a new buffer exactly if the cache is full |
| `KeyManager.Manager.Load` | internal/kms/key_manager.go:73-138 | the section under the write lock, from any cache state, does what the function `GetOrCreate` says to cache, record and result |
| `KeyManager.Manager.GetOrCreateKey` | internal/kms/key_manager.go:61-138 | the same for the whole request; the buffer returned is new, never the cache buffer, and no older buffer is written |
| `KeyManager.Manager.GetKeyInfo` | internal/kms/key_manager.go:165-180 | a failed read reports "no key" without an error, an unparsable record is an error, the cache is not touched |
| `KeyManager.Manager.InvalidateCache` | internal/kms/key_manager.go:183-194 | the old cache buffer is all zero and given up; every copy handed out keeps its bytes |
| `KeyManager.ZeroBytes` | internal/kms/kuznyechik_provider.go:116-120 | every byte is zero |
| `Provider.Wipe` | internal/kms/kuznyechik_provider.go:34 | zeroing a borrowed key changes neither the cached key nor any other copy |
| `Provider.OpenSealUnder` | internal/kms/kuznyechik_provider.go:29-94 | what was sealed under a key opens under it |
| `Provider.AlteredMessageRejected` | internal/kms/kuznyechik_provider.go:62-94 | under every key a message altered in one aligned block is rejected |
| `Provider.Provider.Encrypt` | internal/kms/kuznyechik_provider.go:29-60 | the reply is the message sealed under the key of the request, errors in their order; the cached key survives the wiping |
| `Provider.Provider.Decrypt` | internal/kms/kuznyechik_provider.go:63-94 | the reply is what opening under the key of the request gives |
| `Provider.Provider.GetKeyInfo` | internal/kms/kuznyechik_provider.go:97-113 | a version exactly if the record is there, readable and well formed |
| `KeyProtocol.ExclusiveStep` | internal/kms/key_manager.go:73-74 | at every step the lock belongs to exactly the one request inside the locked section |
| `KeyProtocol.HolderProceeds` | internal/kms/key_manager.go:73-138 | the request inside can always go on and every step brings it nearer to releasing the lock |
| `KeyProtocol.StoreStep` | internal/kms/key_manager.go:83-138 | no step of a run with honest reads changes an existing record |
| `KeyProtocol.OneKeyStep` | internal/kms/key_manager.go:61-138 | at every step the cache, and each key a request has obtained, is the key of the record |
| `KeyProtocol.AllOpenStep` | internal/kms/kuznyechik_provider.go:29-60 | at every step the key of the record opens every message sealed so far |
| `KeyProtocol.SafeRun` | internal/kms/key_manager.go:61-194 | all of this over whole runs, with failed writes and invalidations anywhere |
| `KeyProtocol.SealedStaysReadable` | internal/kms/kuznyechik_provider.go:29-94 | a message sealed in an earlier part of a run is opened, with its plaintext, by any key obtained in a later part |
| `KeyProtocol.UninterruptedRun` | internal/kms/key_manager.go:61-138 | taken without interruption, the steps leave cache, record and result as the function `GetOrCreate` says, which the object's method is proved against |
| `KeyProtocol.FailedReadReplacesKey` | internal/kms/key_manager.go:83-133 | with an empty cache one failing read lets a request replace the key in record and cache |
| `KeyProtocol.RecordSurvivesEveryRunIff` | internal/kms/key_manager.go:83-125 | with failing reads admitted, an existing record survives every run if and only if creation is off |

## Left out

- The lookup tables `t` and `it` are not transcribed: row i of `t` at v is L of the substituted v in byte i, row i of `it` is inverse L of the inversely substituted v in byte i. The two byte boxes and the constants `c` are.
- SHA-256 is any function to 32 bytes; random vectors and keys are arbitrary inputs, or failures; constant-time comparison is equality; base64 is any pair of functions whose decoding undoes its encoding. Padding and alphabet of base64 are not part of this model.
- Wiping of the derived subkeys in `NewKuznyechikAEAD`: they are values in this model. `BlockSize` and the panic on blocks of other lengths than 16 appear as preconditions only.
- Slices.XorBytes: requires dst to be the same memory as a source or to share none with it, as at all its call sites; a shifted overlap, where later turns read what earlier ones wrote, is not modelled.
- GostCounter.CtrBlock: the same requirement on dst and src.
- GostMac.FillBlockPartial: requires the parts not to live in the block buffer, which its callers allocate themselves.
- GostMac.FillBlock: the same; it calls the partial variant with 16 instead of repeating its identical loop.
- GostCounter.GostCtr: takes the vector as a byte string, not as a slice that could share memory with dst; it is copied before anything is written. dst and src are the same memory or share none, as `crypto/cipher` demands of stream modes.
- Conformance of the counter to GOST R 34.13-2015: the code is followed, not the section numbers in its comments.
- Collisions of CMAC across messages that differ in several blocks, or of which one ends in a whole and one in a short block; secrecy, timing and every probabilistic claim.
- HCL beyond what `ToHCL` writes: comments, interpolation, other escapes. The parser accepts the fixed layout only. Nil and empty lists or maps are the same value.
- TemplateConditions.SettledIff: keys without braces, and templates and values whose text outside references has no `{{` and no `{` at its end. Of others, where pieces of two values can combine to a placeholder, only the general results about the loop are shown.
- Rewriting.HaltsIff: the condition for a replacement whose end overlaps a match is that of a one-rule rewriting system and not given; `Rewriting.RarerCharacterHalts` covers a part of it.
- Rewriting.RewriteAll: a call that never returns is outside the precondition `Halts`, about which both directions are proved separately.
- Template.ApplyTemplate: requires that the calls of `replaceAll` return in every order of the keys; values are already formatted as text, and its two identical loops are one method called twice.
- KeyManager.Manager.ParseKeyData: whether a stored version number arrives as a floating-point number depends on the client library; the record says directly if it does.
- KeyProtocol.SafeRun: assumes that this manager is the only writer of the record; several instances, key rotation and a version change in the store are not part of this model.
- KeyProtocol.AllOpenStep: messages only accumulate; the KV history of OpenBao, which could bring back an overwritten key, is not part of this model.
- Token refresh, logging, error texts, contexts and cancellation in the KMS code.
- The gRPC server and its health loop, the CSI provider, the OpenBao client, configuration, reconcilers, the UI and deployment files: plumbing around these parts, or properties one reads off a single body.
- `GetPolicyName` and `calculateVersion`: a choice between two fields, and a hash over serialised data.
