# webpush — a verified Dafny model

This project models the core of `webpush`, a Go library for sending Web Push messages. The library does four things:

- It encrypts a payload with the `aes128gcm` content coding (RFC 8188, RFC 8291).
- It authenticates the application server with a VAPID JWT, signed by a possibly rotating ECDSA P-256 key (RFC 8292).
- It sends one HTTP request per message.
- It keeps subscriptions in a store.

The model covers these parts:

- the two rotating signers (`RotatingSigner` and, backed by Cloud KMS, `RotatingKMSSigner`): one current key plus an ordered list of previous keys, newest first;
- the clean-up pass that drops previous keys no subscription still uses;
- the file- and KMS-backed signers' fixed-width r‖s packing;
- unpadded base64url (section 5 of RFC 4648);
- the exact byte layout of the encrypted body and the key-derivation info strings;
- the `Authorization: vapid t=…, k=…` value;
- subscription validation;
- `Send`'s TTL defaulting, header selection and status classification;
- the in-memory subscription store.

Within the model:

- A key is identified by its public key bytes.
- External calls are function-valued parameters the model calls but does not define: ECDH, HKDF, AES-GCM, ECDSA, SHA-256, KMS, URL parsing, JSON and the HTTP transport.
- Randomness (the ephemeral server key, the salt) and the clock are inputs.
- Each method of a mutex-guarded object is one atomic step.

| file | module | models |
|---|---|---|
| wrappers.dfy | `Wrappers` | `Option`, `Result` |
| bytes.dfy | `Bytes` | bytes, big-endian value, left padding, `copy` into a fixed buffer, r‖s packing |
| base64url.dfy | `Base64Url` | Go's `base64.RawURLEncoding` |
| vapid.dfy | `Vapid` | `vapid/vapid.go` |
| keyring.dfy | `KeyRing` | key material, key resolution and the key errors shared by both rotating signers |
| cleanup.dfy | `Cleanup` | the `RemoveUnusedKeys` sweep as a pure specification |
| rotating.dfy | `Rotating` | `keys/rotating.go`, the local half of `keys/cleanup.go` |
| kms.dfy | `Kms` | `keys/kms.go`, `kmsDerToP1363`, the KMS signing call |
| rotating_kms.dfy | `RotatingKms` | `keys/rotating_kms.go`, the KMS half of `keys/cleanup.go` |
| file_signer.dfy | `FileSigner` | `keys/file.go` |
| text.dfy | `Text` | prefixes, splitting, `strconv.Itoa` and its inverse |
| subscription.dfy | `Subscriptions` | `ParseSubscription` |
| encryption.dfy | `Encryption` | `encrypt` |
| vapid_header.dfy | `VapidHeader` | `createVAPIDHeader` |
| webpush.dfy | `WebPush` | `Options`, `Client`, `NewClient`, `WithHTTPClient`, `Send` |
| memory.dfy | `MemoryStore` | `storage/memory.go` |

Where the source's code and its documentation differ, the model follows the code:

- `encrypt` never checks the length of the subscription's `auth` secret.
- `Send` does not require an `https` endpoint; only `ParseSubscription` does.
- `Rotate` does not refuse a key that is already known. Distinctness of keys is therefore proved only under the caller's obligation to rotate to fresh keys (`KeyRing.RotateKeepsDistinct`, `KeyRing.RotateToCurrentBreaksDistinct`).

## Model

| member | source | states |
|---|---|---|
| Base64Url.Encode | vapid/vapid.go:11-13 | the encoding has length 4⌊n/3⌋ plus 0, 2 or 3 and uses only the URL-safe alphabet, with no padding |
| Base64Url.RoundTrip | vapid/vapid.go:11-18 | decoding the encoding of any byte string gives back that byte string |
| Base64Url.DecodeRejects | vapid/vapid.go:16-18 | a character outside the alphabet (other than the CR/LF the decoder skips) makes decoding fail |
| Base64Url.StripAlphabet | vapid/vapid.go:16-18 | skipping CR/LF leaves a string of alphabet characters unchanged |
| Vapid.ApplicationServerKey | vapid/vapid.go:11-13 | the key string has the encoded length, uses only alphabet characters and no '=', and decodes back to the public key |
| Vapid.DecodeApplicationServerKey | vapid/vapid.go:16-18 | decoding fails on a character outside the alphabet and inverts every encoding |
| Vapid.RejectsExclamation | vapid/vapid.go:16-18 | "not-valid-base64!!!" does not decode |
| Bytes.LeftPad | keys/file.go:146-149 | the padded string has the requested width, the original bytes at its end, zeros before them and the same big-endian value |
| Bytes.Uint32BE | webpush.go:220 | four bytes whose big-endian value is the number |
| Bytes.CopyInto | keys/kms.go:118-119 | `copy` into a buffer changes exactly the target range, which then holds the source bytes |
| Bytes.ValueAppend | keys/kms.go:115-119 | the value of a concatenation is the front's value shifted by the back's length plus the back's value |
| Bytes.P1363Layout | keys/kms.go:115-119 | the buffer after the two copies is 64 bytes and ends with s; when s fits 32 bytes it is r and s each left-padded to 32 bytes, each half with r's or s's value; a longer s keeps only the first 64 − len(s) bytes of r's half |
| Bytes.PackP1363 | keys/kms.go:115-119 | the buffer filled by the two `copy` calls, for every r and s whose slice expressions are valid (len(r) ≤ 32, len(s) ≤ 64), equals P1363Layout |
| Bytes.PadTo | keys/file.go:148-149 | the 32-byte buffer filled by `copy` equals the left-padded scalar |
| Bytes.MinimalBytesValue | keys/kms.go:116-117 | `big.Int.Bytes()` (the minimal big-endian form) has the integer's value |
| Bytes.MinimalBytesFits | keys/kms.go:118-119 | the minimal form fits in k bytes exactly when the integer is below 256^k |
| Bytes.ValueLeadingZeros | keys/kms.go:115-119 | leading zero bytes do not change the big-endian value |
| Bytes.ValueBound | webpush.go:217-220 | a k-byte big-endian value is below 256^k |
| KeyRing.FirstMatch | keys/rotating.go:148-163 | the index found is that of the first key with the given public key; none is found exactly when no key matches |
| KeyRing.RemoveAt | keys/rotating.go:155-158 | deleting the i-th key keeps every other key in its relative order and removes exactly one occurrence |
| KeyRing.Resolve | keys/rotating.go:225-238 | the current key if it matches, otherwise the previous key at FirstMatch's (first-occurrence) index; found exactly when the key is known |
| KeyRing.RotateKeepsDistinct | keys/rotating.go:71-78 | rotating to an unknown key keeps all public keys pairwise distinct |
| KeyRing.RotateToCurrentBreaksDistinct | keys/rotating.go:71-78 | rotating to the current key again leaves it both current and previous |
| KeyRing.RemoveAtKeepsDistinct | keys/rotating.go:148-163 | removing a previous key keeps distinct keys distinct |
| KeyRing.RemoveAtForgets | keys/rotating.go:148-163 | with distinct keys, a removed key is no longer known |
| Rotating.RotatingSigner.constructor | keys/rotating.go:39-44 | the initial key is current, there are no previous keys, and the count is 1 |
| Rotating.RotatingSigner.AllPublicKeys | keys/rotating.go:103-113 | the current key followed by the previous keys, newest first |
| Rotating.RotatingSigner.Sign | keys/rotating.go:47-51 | signs with the current key |
| Rotating.RotatingSigner.PublicKey | keys/rotating.go:54-58 | the current public key |
| Rotating.RotatingSigner.PublicKeyBase64 | keys/rotating.go:61-63 | an alphabet string decoding to the current public key |
| Rotating.RotatingSigner.Rotate | keys/rotating.go:71-78 | the new key is current, the old current key is prepended to the previous keys, the count rises by one, and distinctness survives a fresh key |
| Rotating.RotatingSigner.PreviousKeys | keys/rotating.go:81-90 | the previous public keys in order |
| Rotating.RotatingSigner.PreviousKeysBase64 | keys/rotating.go:93-100 | one string per previous key, each decoding to that key |
| Rotating.RotatingSigner.AllKeys | keys/rotating.go:103-113 | current first, then the previous keys |
| Rotating.RotatingSigner.AllKeysBase64 | keys/rotating.go:116-123 | one string per key, each decoding to that key, current first |
| Rotating.RotatingSigner.RemoveOldestKey | keys/rotating.go:127-137 | an error and no change without previous keys; otherwise exactly the last previous key is dropped |
| Rotating.RotatingSigner.ClearPreviousKeys | keys/rotating.go:140-144 | no previous keys remain and the current key is kept |
| Rotating.RotatingSigner.RemoveKey | keys/rotating.go:148-163 | the current key is refused; otherwise the first match is removed keeping order; no match is "key not found"; a failure changes nothing |
| Rotating.RotatingSigner.RemoveKeyBase64 | keys/rotating.go:166-172 | undecodable input is an error with no change; otherwise it behaves as RemoveKey on the decoded bytes |
| Rotating.RotatingSigner.KeyCount | keys/rotating.go:175-179 | one plus the number of previous keys |
| Rotating.RotatingSigner.IsCurrentKey | keys/rotating.go:182-186 | true exactly when the key equals the current one |
| Rotating.RotatingSigner.IsCurrentKeyBase64 | keys/rotating.go:189-195 | true exactly when the input decodes to the current key |
| Rotating.RotatingSigner.IsKnownKey | keys/rotating.go:198-211 | true exactly when the key is current or equals some previous key |
| Rotating.RotatingSigner.IsKnownKeyBase64 | keys/rotating.go:214-220 | false on undecodable input; otherwise IsKnownKey of the decoded bytes |
| Rotating.RotatingSigner.GetSignerForKey | keys/rotating.go:225-238 | the current key if it matches, else the first matching previous key, else none |
| Rotating.RotatingSigner.GetSignerForKeyBase64 | keys/rotating.go:241-247 | none on undecodable input; otherwise GetSignerForKey of the decoded bytes |
| Rotating.RotatingSigner.RemoveUnusedKeys | keys/cleanup.go:29-53 | a counter error is returned with no change; otherwise the previous keys become the used ones in order, and the result lists them (retained) and the rest (removed) in base64url; current is kept; the count becomes 1 + retained |
| Rotating.RotationOrder | keys/rotating.go:71-78 | after rotating through three keys there are three keys, the previous keys are newest first, and removing the oldest key keeps the two newest |
| Cleanup.SweepMeaning | keys/cleanup.go:36-51 | the sweep succeeds exactly when every previous key is counted; the retained keys are the used ones and the removed ones the unused ones, in order |
| Cleanup.SweepFirstError | keys/cleanup.go:38-41 | the first counter error is the result |
| Cleanup.SweepErrSticks | keys/cleanup.go:38-41 | once a counter call fails, later keys do not change the result |
| Cleanup.SweepExtend | keys/cleanup.go:36-49 | each loop step counts one key and appends it to exactly one of the two lists |
| Cleanup.KeepPartition | keys/cleanup.go:43-48 | retained and removed keys together are the old previous keys, as a multiset |
| Cleanup.KeepPartitionB64 | keys/cleanup.go:43-48 | the same partition holds for the base64url result lists |
| Cleanup.KeepMembers | keys/cleanup.go:43-48 | a key is retained exactly when it is a previous key whose count is positive, and removed exactly when its count is not |
| Cleanup.NoOverlap | keys/cleanup.go:43-48 | no string is in both result lists |
| Cleanup.KeepExtremes | keys/cleanup.go:43-48 | when all keys are used nothing is removed; when none is, nothing is retained |
| Kms.P1363Of | keys/kms.go:106-122 | a DER parse error fails; otherwise the result exists exactly when abs(r) < 256^32 and abs(s) < 256^64 (the slice-bounds panic otherwise is an explicit error); a result is 64 bytes ending with s's bytes, and when abs(s) < 256^32 its halves hold abs(r) and abs(s) |
| Kms.LongSOverwritesR | keys/kms.go:118-119 | an s of 33 to 64 bytes is packed without an error, and the second half then no longer holds s |
| Kms.DerToP1363 | keys/kms.go:106-122 | the buffer filled step by step equals P1363Of of the parse |
| Kms.SignWithKeyName | keys/kms.go:77-93 | signs with the named key version and converts its DER signature; a success is 64 bytes and implies the remote call succeeded |
| RotatingKms.RotatingKMSSigner.constructor | keys/rotating_kms.go:47-64 | the initial key is current and there are no previous keys |
| RotatingKms.RotatingKMSSigner.New | keys/rotating_kms.go:47-64 | a fetch error is returned; otherwise a fresh signer with the fetched key as its only key |
| RotatingKms.RotatingKMSSigner.AllPublicKeys | keys/rotating_kms.go:216-226 | the current key followed by the previous keys |
| RotatingKms.RotatingKMSSigner.Sign | keys/rotating_kms.go:105-124 | signs with the current key version's name |
| RotatingKms.RotatingKMSSigner.PublicKey | keys/rotating_kms.go:146-150 | the current public key |
| RotatingKms.RotatingKMSSigner.PublicKeyBase64 | keys/rotating_kms.go:153-155 | an alphabet string decoding to the current public key |
| RotatingKms.RotatingKMSSigner.Rotate | keys/rotating_kms.go:162-175 | a fetch error changes nothing; otherwise the fetched key is current and the old one is prepended to the previous keys |
| RotatingKms.RotatingKMSSigner.AddPreviousKey | keys/rotating_kms.go:180-191 | a fetch error changes nothing; otherwise the fetched key is appended as the oldest previous key, current unchanged |
| RotatingKms.RotatingKMSSigner.PreviousKeys | keys/rotating_kms.go:194-203 | the previous public keys in order |
| RotatingKms.RotatingKMSSigner.PreviousKeysBase64 | keys/rotating_kms.go:206-213 | one string per previous key, each decoding to it |
| RotatingKms.RotatingKMSSigner.AllKeys | keys/rotating_kms.go:216-226 | current first, then the previous keys |
| RotatingKms.RotatingKMSSigner.AllKeysBase64 | keys/rotating_kms.go:229-236 | one string per key, each decoding to it, current first |
| RotatingKms.RotatingKMSSigner.RemoveOldestKey | keys/rotating_kms.go:240-250 | an error and no change without previous keys; otherwise the last previous key is dropped |
| RotatingKms.RotatingKMSSigner.ClearPreviousKeys | keys/rotating_kms.go:253-257 | no previous keys remain, current kept |
| RotatingKms.RotatingKMSSigner.RemoveKey | keys/rotating_kms.go:261-276 | refuses the current key, removes the first match keeping order, otherwise "key not found"; failures change nothing |
| RotatingKms.RotatingKMSSigner.RemoveKeyBase64 | keys/rotating_kms.go:279-285 | undecodable input is an error with no change, otherwise RemoveKey of the decoded bytes |
| RotatingKms.RotatingKMSSigner.KeyCount | keys/rotating_kms.go:288-292 | one plus the number of previous keys |
| RotatingKms.RotatingKMSSigner.IsCurrentKey | keys/rotating_kms.go:295-299 | equality with the current key |
| RotatingKms.RotatingKMSSigner.IsCurrentKeyBase64 | keys/rotating_kms.go:302-308 | true exactly when the input decodes to the current key |
| RotatingKms.RotatingKMSSigner.IsKnownKey | keys/rotating_kms.go:311-324 | membership among current and previous keys |
| RotatingKms.RotatingKMSSigner.IsKnownKeyBase64 | keys/rotating_kms.go:327-333 | false on undecodable input, otherwise IsKnownKey of the decoded bytes |
| RotatingKms.RotatingKMSSigner.SignWithKey | keys/rotating_kms.go:336-374 | with no matching key or an empty key name: "key not found" and no KMS call; otherwise one KMS call with the resolved name and its converted signature |
| RotatingKms.RotatingKMSSigner.SignWithKeyBase64 | keys/rotating_kms.go:377-383 | a decode error and no KMS call on undecodable input, otherwise SignWithKey of the decoded bytes |
| RotatingKms.RotatingKMSSigner.GetSignerForKey | keys/rotating_kms.go:388-409 | current first, then the first matching previous key, else none |
| RotatingKms.RotatingKMSSigner.GetSignerForKeyBase64 | keys/rotating_kms.go:412-418 | none on undecodable input, otherwise GetSignerForKey of the decoded bytes |
| RotatingKms.RotatingKMSSigner.RemoveUnusedKeys | keys/cleanup.go:60-84 | the same sweep, commit and error semantics as for the local rotating signer |
| FileSigner.NewFileSignerFromBase64 | keys/file.go:54-76 | a decode error or a length other than 32 fails; otherwise the scalar is the 32 bytes' value and the public key is derived from them |
| FileSigner.PaddedScalar | keys/file.go:146-149 | a scalar below 256^32 as exactly 32 big-endian bytes |
| FileSigner.PadMinimalValue | keys/file.go:146-149 | left-padding the minimal form of a byte string's value gives that byte string back |
| FileSigner.ValueInjective | keys/file.go:146-149 | equal-length byte strings with equal values are equal |
| FileSigner.Sign | keys/file.go:79-93 | a signing error is returned; otherwise r and s are packed exactly as P1363Of packs parsed integers |
| FileSigner.PublicKey | keys/file.go:96-98 | the stored public key |
| FileSigner.PublicKeyBase64 | keys/file.go:101-103 | an alphabet string of the encoded length that decodes to the public key |
| FileSigner.GenerateKeyPair | keys/file.go:139-157 | a key-generation error is returned; otherwise the private string decodes to the 32-byte padded scalar, the public one to its public key, and loading the private string gives back the same signer |
| Text.IndexOf | webpush.go:274-279 | the position of the first occurrence of a character, none exactly when it does not occur |
| Text.SplitFirst | webpush.go:274-279 | the text before the first separator and the rest, which rejoin to the input |
| Text.Digits | webpush.go:107 | at least one decimal digit, with no leading zero |
| Text.Itoa | webpush.go:107 | `strconv.Itoa`: the digits of the magnitude, with "-" before a negative number |
| Text.ItoaRoundTrip | webpush.go:107 | the decimal text of any integer parses back to it |
| Text.DigitsValueOfDigits | webpush.go:107 | the digits of n have value n |
| Text.SplitFirstAt | webpush.go:261-279 | splitting at the first separator recovers the parts joined around it |
| Subscriptions.ParseSubscription | webpush.go:283-302 | succeeds exactly when the JSON unmarshals and endpoint, p256dh and auth are non-empty and the endpoint starts with "https://"; each failure is reported in the source's order |
| Subscriptions.RejectsPlainHttp | webpush.go:297-300 | an http endpoint is refused |
| Encryption.KeyInfo | webpush.go:173-174 | "WebPush: info\0", then the client public key, then the server public key |
| Encryption.InfoLengths | webpush.go:173-196 | for 65-byte keys the key info is 144 bytes; the CEK and nonce info strings are 28 and 24 bytes; each ends in a zero byte |
| Encryption.ReadFull | webpush.go:179-196 | reading n bytes succeeds exactly when the stream has n bytes, and gives its first n |
| Encryption.RecordSize | webpush.go:217 | below 2^32, and equal to the ciphertext length plus 86 when that fits |
| Encryption.ParseBodyInverts | webpush.go:215-226 | reading the header back from an assembled body gives the salt, record size and key id, and the rest is the ciphertext |
| Encryption.DeriveKeys | webpush.go:176-197 | on success a 16-byte CEK and a 12-byte nonce; the errors are the three derivation errors |
| Encryption.EncryptSpec | webpush.go:135-227 | an undecodable p256dh or auth is reported first; success implies both decode |
| Encryption.Encrypt | webpush.go:135-227 | the body built by successive appends equals EncryptSpec |
| Encryption.EncryptLayout | webpush.go:215-226 | with a 16-byte salt and 65-byte server key, the body parses as salt, record size = body length mod 2^32, key id = server public key, and the ciphertext after byte 86 |
| Encryption.EncryptSeals | webpush.go:199-226 | the bytes after the header are the seal of payload ‖ 0x02 under the derived CEK and nonce, and the body is 103 bytes longer than the payload for a 16-byte tag |
| VapidHeader.SigningInput | webpush.go:261-262 | base64url(header) "." base64url(claims), all ASCII |
| VapidHeader.CreateVapidHeader | webpush.go:230-280 | a URL parse error is reported; after a parse, the signer's error over the digest of the signing input is reported and its success gives a result; a success starts with "vapid t=" |
| VapidHeader.SplitAssembled | webpush.go:274-279 | the four parts of an assembled value are recovered |
| VapidHeader.ParseAssembled | webpush.go:261-279 | the header, claims, signature and key of an assembled value decode back |
| VapidHeader.VapidHeaderContents | webpush.go:230-280 | a created header carries the fixed JWT header, claims with aud = scheme "://" host and exp = now + 43200, the signature over SHA-256 of the signing input, and the signer's public key |
| WebPush.Options.constructor | webpush.go:40-45 | the options hold the given TTL, urgency and topic |
| WebPush.EffectiveTtl | webpush.go:82-84 | a zero TTL becomes 2419200; any other TTL is kept |
| WebPush.RequestHeaders | webpush.go:104-114 | exactly Authorization, Content-Encoding aes128gcm, Content-Type and TTL (which parses back to the TTL), plus Urgency and Topic exactly when non-empty |
| WebPush.SetHeaders | webpush.go:104-114 | the headers set one by one equal RequestHeaders |
| WebPush.Classify | webpush.go:122-127 | success exactly for a status in [200, 300); otherwise an error with the status and body |
| WebPush.Outcome | webpush.go:116-127 | a transport error is reported as such; otherwise the status classifies the result |
| WebPush.Client.constructor | webpush.go:63-69 | the client keeps the signer and subject and uses the default transport |
| WebPush.Client.WithHttpClient | webpush.go:72-75 | replaces only the transport and returns the same client |
| WebPush.Client.Send | webpush.go:78-128 | a zero TTL in the caller's options becomes the default; encryption or header errors return before any request; otherwise exactly one request with the encrypted body and RequestHeaders is sent, and its outcome is the result |
| MemoryStore.Record.constructor | storage/memory.go:29-56 | a record with the given fields and zero timestamps |
| MemoryStore.RemovedKeysHaveNoSubscriptions | keys/cleanup.go:36-51 | with the store as counter, the sweep succeeds, the removed keys are exactly those with no subscription and the retained keys those with some |
| MemoryStore.Memory.constructor | storage/memory.go:22-26 | an empty store |
| MemoryStore.Memory.Save | storage/memory.go:29-56 | created-at is set to now only when zero, updated-at is now, both written back to the caller's record, and the entry for the id is replaced by a copy |
| MemoryStore.Memory.Get | storage/memory.go:59-68 | the stored entry, or "not found" when the id is absent |
| MemoryStore.Memory.GetByEndpoint | storage/memory.go:71-81 | a stored entry with that endpoint, or "not found" exactly when none has it |
| MemoryStore.Memory.GetByUserID | storage/memory.go:84-95 | exactly the stored entries with that user id, each once |
| MemoryStore.Memory.GetByVAPIDKey | storage/memory.go:98-109 | exactly the stored entries with that VAPID key, each once |
| MemoryStore.Memory.CountByVAPIDKey | storage/memory.go:112-123 | the number of entries with that VAPID key, the counter the clean-up consumes |
| MemoryStore.Memory.Delete | storage/memory.go:126-135 | "not found" with no change for a missing id; otherwise only that entry is removed |
| MemoryStore.Memory.DeleteByEndpoint | storage/memory.go:138-149 | "not found" with no change exactly when no entry has the endpoint; otherwise exactly one such entry is removed |
| MemoryStore.Memory.Collect | storage/memory.go:156-160 | every stored entry exactly once |
| MemoryStore.Memory.List | storage/memory.go:152-176 | empty when offset ≥ n; min(limit, n − offset) distinct stored entries when 0 ≤ offset < n; empty when offset < 0 and limit = 0; an explicit error exactly when offset < n and either limit < 0 (the capacity panic of `make`) or offset < 0 with limit > 0 (the index panic of `all[offset]`) |
| MemoryStore.DistinctIdsCount | storage/memory.go:156-176 | a list of entries with distinct ids has as many ids as entries |
| MemoryStore.DistinctIds | storage/memory.go:156-176 | as many ids as entries means the ids are distinct |

## Left out

- Go run-time panics are modelled as ordinary error values: `KeyRing.SliceOutOfRange` for an invalid slice expression of the signature packing, `MemoryStore.IndexPanic` for an invalid index or capacity in `List`. In Go a panic unwinds the goroutine and is not a returned `error`.
- `Text.HasPrefix` and `Text.ParseInt` stand in for `strings.HasPrefix` and for reading the TTL header back; they are library stand-ins with no row of their own.
- Cryptography is not modelled. ECDH, HKDF, AES-128-GCM, ECDSA, SHA-256 and P-256 point validation are foreign library calls. They appear as function parameters with no properties beyond the lengths the code checks.
- `NewKMSSigner`, `fetchKMSKeyVersion`, `KMSSigner.PublicKey` and `Close` are left out. They create a KMS client and parse PEM/x509 public keys. A fetch is a parameter whose result is the public key or an error; its error also stands for the failure of `kms.NewKeyManagementClient` in `NewRotatingKMSSigner` ("creating KMS client: ..."), which `RotatingKMSSigner.New` returns as a `Remote` error.
- `NewFileSigner` and `GenerateKey` are left out because they read or write PEM files. `GenerateKeyPair` takes the outcome of `ecdsa.GenerateKey` as an input: its error, or a scalar below 256^32, as the P-256 group order guarantees.
- Time is an input. The clock behind `Save`'s timestamps and the VAPID expiry is passed in.
- Encryption randomness is an input. The ephemeral server key and the salt are passed in, each with the error the random source may raise.
- Concurrency is not modelled. Every `sync.RWMutex` is left out; each method is one atomic step.
- Map iteration order is a nondeterministic choice. `GetByEndpoint`, `DeleteByEndpoint`, `List` and the `GetBy*` loops pick keys that way, so their contracts speak of sets and counts, not positions.
- WebPush.Client.Send: the `creating request` error of `http.NewRequestWithContext` is not modelled. The endpoint has already passed `url.Parse` in `createVAPIDHeader`, so that branch cannot be taken.
- Header names are not canonicalised as Go's `net/http` does (`TTL` is sent as `Ttl`). The model keeps the names as the code writes them.
- The error of `io.ReadAll` on a failed response body is ignored by the source, and the model takes the body as given.
- Library errors that the code cannot reach are not modelled: `aes.NewCipher` with a 16-byte key, `cipher.NewGCM`, and `json.Marshal` of string maps. The JSON marshalling itself is a parameter.
- Encryption.Encrypt: `append(plaintext, 0x02)` may write into the caller's buffer. The model works on values and does not capture that aliasing.
- A nil subscription or nil record pointer dereference is not modelled. The model's values are never nil.
- `Memory.Close` in storage/memory.go is a no-op that always returns nil; it holds no state to model.
- MemoryStore.Memory.List: Go's `int` overflow in `offset + limit` is not modelled; integers are unbounded.
- Base64Url.Decode (Go's decoder) accepts nonzero trailing bits. Only the encode-then-decode round trip is claimed, not decode-then-encode.
- `Signer.PublicKey` of the signer behind a `RotatingSigner` key is its `publicKey` field. The model identifies that signer by its public key, so a signer whose key changes over time is not modelled.
