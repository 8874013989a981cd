# A verified model of the xtcv3 diabetes-data front end

xtcv3 is a decentralised application for diabetes research. Patients submit surveys and blood-glucose readings from a Next.js front end. The data is "encrypted" with a mock FHE client, stored on IPFS, and indexed on the Sepolia test network. Researchers pay a fee there to request analyses and view aggregate charts.

This project models the client-side logic of that front end in Dafny and proves properties of it. The modules follow the source files:

- `Hash`: the 32-bit polynomial string hash `generateHash`, which both patient-record services define.
- `Codec`: the mock encryption `btoa(unescape(encodeURIComponent(json)))` and its inverse.
  - UTF-8 follows RFC 3629.
  - Base64 with padding follows section 4 of RFC 4648.
  - `atob` follows the forgiving-base64 decoder of the WHATWG Infra standard.
- `PatientIndex`, `FilebaseService`, `IpfsService`: the patient ID, the simulated CID and the `patientId -> CID` index of `filebaseService.js` and `ipfsService.js`.
  - Each service is a class whose map the methods update.
  - Each service has its upload fallback and its persistence under 'patientRecords'.
- `IpfsClient`: the `IPFSClient` state machine of `utils/ipfs.js`, with:
  - its local-storage mock;
  - the mock CID;
  - the gateway URL;
  - the CID validator.
- `Fhevm`: the mock FHE client of `utils/fhevm.js`, with:
  - the uint32 and glucose range checks;
  - the 32-byte ciphertext and 64-byte proof, both in a hex layout;
  - the XOR embedding of the value;
  - the format validator;
  - the mock decryption;
  - batches.
- `Analytics`: the discrete structure of the researcher charts in `AnalyticsChart.js`:
  - row extraction;
  - glucose bands;
  - the last-30-dates trend;
  - the gender, age and type partitions;
  - strata with distinct-patient counts;
  - the shape of the correlation table.
- `DiabetesSurvey`, `ComprehensiveSurvey`: form validation, per-field error clearing, the module counter, and checkbox arrays.
- `PatientPage`, `ResearcherPage`: the guard chains and step order of the two pages, the factor toggle, and the newest-first analysis history.
- `Wallet`: address abbreviation, the Sepolia check with its hex-to-decimal conversion, and the connect, switch and disconnect state.
- `ServicesConfig`: the health record and the choice between real services and mocks.
- Shared modules:
  - `Wrappers` holds `Option`, `Result` and a JS value that may be absent: `Field`, with truthiness.
  - `Strs` holds string helpers, radix printing, `parseInt`, and UTF-16 code units.
  - `Storage` holds `localStorage` over JSON values.
  - `Lists` holds the `filter(x => x !== v)` idiom.
  - `Arith` holds Euclidean division facts.

Everything the program gets from outside is a parameter of the operation that uses it:

- network calls and SDK answers are outcome datatypes;
- the clock and `Math.random` are given as values;
- the environment is given as values;
- `parseFloat` is a function into `Option<real>`, with `None` for NaN.

## Model

| member | source | states |
|---|---|---|
| Hash.ToInt32 | frontend/services/filebaseService.js:9-10 | the result of `x & x` after a shift-and-subtract lies in the signed 32-bit range |
| Hash.ToInt32Wraps | frontend/services/filebaseService.js:9-10 | ToInt32 subtracts a whole number of 2^32 periods, so it is a reduction modulo 2^32 |
| Hash.ToInt32Periodic | frontend/services/filebaseService.js:9-10 | adding any multiple of 2^32 does not change the truncated value |
| Hash.Step | frontend/services/filebaseService.js:8-10 | one loop step keeps the hash a signed 32-bit integer |
| Hash.StepIsPolynomial | frontend/services/filebaseService.js:9-10 | `((h << 5) - h) + c` truncated equals ToInt32(31·h + c) |
| Hash.Fold | frontend/services/filebaseService.js:5-11 | folding the steps over the UTF-16 units stays in the 32-bit range |
| Hash.FoldIsPolynomialMod | frontend/services/filebaseService.js:5-11 | the loop's result is the polynomial hash Σ 31^k·c truncated to 32 bits once, at the end |
| Hash.Hash32 | frontend/services/filebaseService.js:4-11 | the hash of a string's UTF-16 units is a signed 32-bit integer |
| Hash.GenerateHash | frontend/services/filebaseService.js:4-13 | the loop starting at 0 over `str.length` code units returns HashHex, the hex text of the absolute value |
| Hash.HashHexShape | frontend/services/filebaseService.js:12 | the result is 1 to 8 lowercase hex digits whose value is `Math.abs(hash)`, at most 2^31 |
| Hash.ToRadixLowerHex | frontend/services/filebaseService.js:12 | `toString(16)` prints only lowercase hex digits |
| PatientIndex.PatientIdShape | frontend/services/filebaseService.js:100-103 | the patient ID is the hash of `wallet_name_idNumber`, 1 to 8 lowercase hex digits |
| PatientIndex.GeneratePatientId | frontend/services/filebaseService.js:100-103 | the hash of `wallet_name_idNumber`; see PatientIdShape for its 1 to 8 hex digits and AbsentFieldIsUndefinedText for a missing name or ID number |
| PatientIndex.AbsentFieldIsUndefinedText | frontend/services/filebaseService.js:101 | a missing name or ID number gives the same ID as the text "undefined" |
| PatientIndex.RecordVersionIsOne | frontend/services/filebaseService.js:251-257 | the record text always ends with `"version":1}` |
| PatientIndex.SimulatedCidShape | frontend/services/filebaseService.js:205-210 | the simulated CID is 46 characters: "Qm", the hash, then '0' padding, so its last character is always '0' |
| PatientIndex.SimulateIPFSUpload | frontend/services/filebaseService.js:205-210 | see SimulatedCidShape: "Qm", the hash, then '0' padding to 46 characters; IpfsClient.SimulatedCidIsNotValid: never a valid CID |
| PatientIndex.LoadIndex | frontend/services/filebaseService.js:73-85 | a loaded index never maps an ID to a missing CID |
| PatientIndex.LoadIndexArray | frontend/services/filebaseService.js:73-85 | a stored array gives `Object.entries`' keys "0", "1", …: exactly its string elements, each under its index |
| PatientIndex.LoadIndexString | frontend/services/filebaseService.js:73-85 | a stored string gives one entry per character, under its index and holding that character |
| PatientIndex.SaveLoadRoundTrip | frontend/services/filebaseService.js:73-97 | loading what was saved restores the map (entries with no CID are dropped) |
| PatientIndex.OverwriteOnResubmit | frontend/services/filebaseService.js:281 | `set` overwrites the one entry, keeps every other, and grows the map only for a new ID |
| PatientIndex.Lookup | frontend/services/filebaseService.js:275 | `get` returns the stored CID for a known ID and nothing for an unknown one |
| PatientIndex.DecryptFetchedRecord | frontend/services/filebaseService.js:313-321 | decrypting a fetched envelope of a submitted record whose JSON text parses returns that text |
| PatientIndex.ListingExact | frontend/services/filebaseService.js:332-338 | the listing has exactly one entry per map key, with its CID and gateway URL |
| FilebaseService.FilebaseIPFSService.constructor | frontend/services/filebaseService.js:16-28 | the bucket defaults to 'diabetes-analytics', the index is loaded in a browser, and the client is initialised only with configured credentials |
| FilebaseService.FilebaseIPFSService.InitializeS3 | frontend/services/filebaseService.js:31-70 | missing keys, or keys containing 'YOUR_', leave the service uninitialised; otherwise it is initialised |
| FilebaseService.FilebaseIPFSService.LoadPatientRecords | frontend/services/filebaseService.js:73-85 | a browser with a parsable saved index replaces the map; anything else keeps it |
| FilebaseService.FilebaseIPFSService.SavePatientRecords | frontend/services/filebaseService.js:88-97 | in a browser, the map is written under 'patientRecords'; elsewhere nothing is written |
| FilebaseService.FilebaseIPFSService.SubmitPatientRecord | frontend/services/filebaseService.js:240-293 | the ID is the hash of the triple, the CID is the upload's, oldCid is the prior entry, the message depends on oldCid, and only that entry of the map changes before it is saved |
| FilebaseService.FilebaseIPFSService.StoreCid | frontend/services/filebaseService.js:275-282 | returns the previous CID, sets the new one and saves the index |
| FilebaseService.FilebaseIPFSService.DeletePatientRecord | frontend/services/filebaseService.js:341-347 | true exactly when the ID was present; only that entry goes, and the index is saved only then |
| FilebaseService.UploadFallsBackToSimulation | frontend/services/filebaseService.js:137-140 | without a client, or when the upload fails, the result is the simulated 46-character "Qm" CID |
| FilebaseService.UploadUsesETag | frontend/services/filebaseService.js:167-191 | a successful upload answers the ETag with its quotes removed, or the hash when there is no ETag |
| FilebaseService.FilebaseIPFSService.UploadToIPFS | frontend/services/filebaseService.js:129-202 | see UploadFallsBackToSimulation (no client or a failed upload gives the simulated CID) and UploadUsesETag (the ETag without its quotes, or the hash when there is none) |
| FilebaseService.FilebaseIPFSService.GetFromIPFS | frontend/services/filebaseService.js:213-237 | an uninitialised service throws 'Filebase 未初始化', a non-ok response throws '获取IPFS数据失败: ' followed by its status text, and only a body succeeds, giving that body's `encryptedData` |
| FilebaseService.FilebaseIPFSService.GetPatientRecord | frontend/services/filebaseService.js:304-329 | see GetFailsWithoutRecordOrClient (the unknown-ID and uninitialised failures) and GetReturnsSubmittedRecord (the submitted record comes back); a body that does not decrypt fails with '数据解密失败' |
| FilebaseService.FilebaseIPFSService.GetAllPatientRecords | frontend/services/filebaseService.js:332-338 | see PatientIndex.ListingExact: one entry per index key with its CID and gateway URL; StatusReflectsState: as many entries as records |
| FilebaseService.FilebaseIPFSService.GetServiceStatus | frontend/services/filebaseService.js:350-358 | see StatusReflectsState: the record count, and the Filebase mode exactly when initialised |
| FilebaseService.GetFailsWithoutRecordOrClient | frontend/services/filebaseService.js:304-329 | an unknown ID fails with '未找到患者记录' and an uninitialised service with 'Filebase 未初始化'; a success needs both |
| FilebaseService.GetReturnsSubmittedRecord | frontend/services/filebaseService.js:304-321 | a known ID whose gateway returns the submitted envelope yields the original record |
| FilebaseService.StatusReflectsState | frontend/services/filebaseService.js:350-358 | recordCount is the size of the map and of the listing; the mode is 'Filebase IPFS' exactly when initialised |
| FilebaseService.ReloadRestoresIndex | frontend/services/filebaseService.js:73-97 | a fresh service in the same browser loads the index the old one saved |
| Codec.EncodeChar | frontend/services/filebaseService.js:109 | `encodeURIComponent` followed by `unescape` turns each character into its 1 to 4 UTF-8 bytes |
| Codec.DecodeFirst | frontend/services/filebaseService.js:120 | decoding one UTF-8 sequence consumes between one byte and the whole input |
| Codec.DecodeEncodedChar | frontend/services/filebaseService.js:109-120 | decoding the bytes of an encoded character gives back that character and its length |
| Codec.Utf8RoundTrip | frontend/services/filebaseService.js:109-120 | `decodeURIComponent(escape(...))` inverts `unescape(encodeURIComponent(...))` on every string |
| Codec.DecodedCharEncodes | frontend/services/filebaseService.js:120 | the bytes a decoded character consumed are exactly its encoding (no overlong or surrogate forms are accepted) |
| Codec.Utf8DecodeExact | frontend/services/filebaseService.js:120 | bytes that decode to a string are that string's encoding, so the decoder accepts only well-formed UTF-8 |
| Codec.B64CharValue | frontend/services/filebaseService.js:109-120 | the Base64 alphabet of section 4 of RFC 4648 reads back each of its 64 digits |
| Codec.Unpadded | frontend/services/filebaseService.js:109 | `btoa` writes four digits per three bytes and two or three for a final partial group |
| Codec.Padding | frontend/services/filebaseService.js:109 | padding with '=' brings the text to a multiple of four |
| Codec.RemoveWhitespace | frontend/services/filebaseService.js:120 | `atob` ignores ASCII white space |
| Codec.UnpaddedIsB64 | frontend/services/filebaseService.js:109 | every unpadded digit belongs to the alphabet |
| Codec.DecodeUnpadded | frontend/services/filebaseService.js:109-120 | decoding the digit groups returns the encoded bytes |
| Codec.EncodeShape | frontend/services/filebaseService.js:109 | `btoa`'s output has a length divisible by 4 and only alphabet digits or '=' |
| Codec.StripPaddingOfEncode | frontend/services/filebaseService.js:109-120 | stripping the padding from `btoa`'s output leaves the unpadded digits |
| Codec.Base64RoundTrip | frontend/services/filebaseService.js:109-120 | `atob(btoa(b)) == b` for every byte string |
| Codec.UnpaddedRemainder | frontend/services/filebaseService.js:109 | unpadded output is never one more than a multiple of four long |
| Codec.DecryptEncrypt | frontend/services/filebaseService.js:106-126 | decryptData(encryptData(x)) returns the same JSON text whenever that text parses |
| Codec.EncryptData | frontend/services/filebaseService.js:106-115 | Base64 of the UTF-8 of the JSON text; see DecryptEncrypt, DecryptRejectsNonJson and Base64RoundTrip with Utf8RoundTrip |
| Codec.DecryptData | frontend/services/filebaseService.js:118-126 | see DecryptEncrypt and DecryptSound for success, and DecryptRejectsNonJson, DecryptRejectsShort, DecryptRejectsBadUtf8, DecryptRejectsUndefined for the decryption error |
| Codec.DecryptRejectsNonJson | frontend/services/filebaseService.js:118-126 | an envelope of text that `JSON.parse` refuses raises the decryption error |
| Codec.DecryptSound | frontend/services/filebaseService.js:118-126 | a text decryptData accepts is the Base64 of the UTF-8 encoding of its result, and that result parses as JSON |
| Codec.DecryptRejectsShort | frontend/services/filebaseService.js:118-126 | a single Base64 digit raises the decryption error |
| Codec.DecryptRejectsBadUtf8 | frontend/services/filebaseService.js:118-126 | valid Base64 of an invalid UTF-8 byte raises the decryption error |
| Codec.DecryptRejectsUndefined | frontend/services/filebaseService.js:118-126 | decrypting a missing `encryptedData` (the text "undefined") raises the decryption error |
| Codec.RemainderOneRejected | frontend/services/filebaseService.js:120 | any text of length 1 modulo 4 is refused by `atob` |
| IpfsService.Service.constructor | frontend/services/ipfsService.js:15-24 | the gateway and upload URL fall back to their defaults, the Pinata keys are kept, and a browser's saved index is loaded |
| IpfsService.Service.LoadPatientRecords | frontend/services/ipfsService.js:27-40 | a parsable saved index replaces the map; otherwise the map is kept |
| IpfsService.Service.SavePatientRecords | frontend/services/ipfsService.js:43-53 | in a browser the map is written under 'patientRecords'; elsewhere nothing is written |
| IpfsService.Service.SubmitPatientRecord | frontend/services/ipfsService.js:148-199 | the shared patient ID, the upload's CID, the prior entry as oldCid, '记录已更新' or '记录已创建' by oldCid, and only that entry of the map changes before the save |
| IpfsService.Service.StoreCid | frontend/services/ipfsService.js:176-183 | returns the previous CID, overwrites the entry and saves the index |
| IpfsService.Service.DeletePatientRecord | frontend/services/ipfsService.js:235-241 | true exactly when the entry existed; only it is removed, and the index is saved only then |
| IpfsService.UploadModes | frontend/services/ipfsService.js:85-131 | a missing API key or secret key, a non-ok response or a throw gives the simulated CID; otherwise the result is `IpfsHash` |
| IpfsService.Service.PinataConfigured | frontend/services/ipfsService.js:87-91 | see UploadModes: without both Pinata keys the upload is simulated |
| IpfsService.Service.UploadToIPFS | frontend/services/ipfsService.js:85-123 | see UploadModes: a missing key, a non-ok response or a throw gives the simulated CID, otherwise `IpfsHash` |
| IpfsService.Service.GetFromIPFS | frontend/services/ipfsService.js:134-145 | fetches `baseUrl + cid`: a non-ok response throws '获取IPFS数据失败: ' followed by its status text, and only a body succeeds, giving its `encryptedData` |
| IpfsService.SameIdAndSimulation | frontend/services/ipfsService.js:2-12 | the hash, the patient ID and the simulated CID are the Filebase service's: a 46-character "Qm" CID and an ID of 1 to 8 digits |
| IpfsService.GetReturnsSubmittedRecord | frontend/services/ipfsService.js:202-216 | fetching `baseUrl + cid` for a submitted envelope returns the record without a gateway URL |
| IpfsService.GetUnknownFails | frontend/services/ipfsService.js:204-207 | an unknown ID fails with '未找到患者记录' |
| IpfsService.Service.GetPatientRecord | frontend/services/ipfsService.js:202-224 | see GetReturnsSubmittedRecord (the submitted record comes back, without a gateway URL) and GetUnknownFails ('未找到患者记录', never a throw) |
| IpfsService.Service.GetAllPatientRecords | frontend/services/ipfsService.js:227-232 | see PatientIndex.ListingExact: one entry per index key with its CID and no gateway URL |
| IpfsService.SharedWithFilebase | frontend/services/ipfsService.js:27-35 | a fresh IPFS service loads the index a Filebase service saved |
| IpfsService.SharedToFilebase | frontend/services/ipfsService.js:43-53 | a fresh Filebase service loads the index an IPFS service saved (apart from missing CIDs) |
| IpfsClient.GetIPFSUrlParts | frontend/utils/ipfs.js:239-241 | the URL is the gateway followed by the CID, with 'https://ipfs.io/ipfs/' by default |
| IpfsClient.GetIPFSUrl | frontend/utils/ipfs.js:239-241 | see GetIPFSUrlParts: the gateway, by default 'https://ipfs.io/ipfs/', followed by the CID |
| IpfsClient.ValidCIDForms | frontend/utils/ipfs.js:244-248 | a valid CID is 46 characters starting "Qm" or 59 starting "bafy"; a 46-character one with a '0' after "Qm" is invalid |
| IpfsClient.ValidCIDExact | frontend/utils/ipfs.js:246 | "Qm" + body is valid iff the body is 44 base58 characters, and "bafy" + body iff it is 55 characters of [a-z2-7] |
| IpfsClient.SimulatedCidIsNotValid | frontend/utils/ipfs.js:244-248 | no simulated CID passes isValidCID, because its padding contains '0' |
| IpfsClient.IsValidCID | frontend/utils/ipfs.js:244-248 | see ValidCIDExact (exactly the two regex forms) and ValidCIDForms (46 characters after "Qm" or 59 after "bafy") |
| IpfsClient.MockCidShape | frontend/utils/ipfs.js:112-114 | a mock CID starts with "Qm" and is at most 46 characters |
| IpfsClient.MockCid | frontend/utils/ipfs.js:112-114 | see MockCidShape: starts with "Qm" and has at most 46 characters |
| IpfsClient.MockUploadToIPFS | frontend/utils/ipfs.js:223-236 | a CID starting with "Qm" of at most 46 characters; nothing is stored |
| IpfsClient.Client.constructor | frontend/utils/ipfs.js:4-8 | no client, not initialised, simulation mode |
| IpfsClient.Client.Initialize | frontend/utils/ipfs.js:10-42 | initialised on every path; real mode only in a browser whose node answers `id()`; the result is true exactly in real mode |
| IpfsClient.Client.MockUploadData | frontend/utils/ipfs.js:107-134 | returns the mock CID and, in a browser, stores the data with its upload stamps under 'ipfs_mock_' + CID |
| IpfsClient.Client.UploadData | frontend/utils/ipfs.js:44-79 | initialises first if needed (leaving simulation mode only for a browser whose node answers, and, in a browser, holding a client unless the import failed); simulation mode or a failed `add` gives the mock CID and the mock record stored in a browser, otherwise the node's CID with storage untouched |
| IpfsClient.Client.RetrieveData | frontend/utils/ipfs.js:81-104 | initialises first if needed (leaving simulation mode only for a browser whose node answers, and, in a browser, holding a client unless the import failed); simulation mode, a failed `cat` or unparsable chunks give the mock record, otherwise the parsed concatenation of the chunks |
| IpfsClient.MockRetrieveReturnsStored | frontend/utils/ipfs.js:141-149 | what is stored under 'ipfs_mock_' + CID is returned |
| IpfsClient.MockRetrieveDefault | frontend/utils/ipfs.js:150-165 | outside a browser or for an unknown CID, the fixed default mock record is returned |
| IpfsClient.MockRoundTrip | frontend/utils/ipfs.js:107-165 | retrieving a mock upload returns the uploaded data marked `isSimulated` with version '1.0' |
| IpfsClient.Client.MockRetrieveData | frontend/utils/ipfs.js:137-167 | see MockRetrieveReturnsStored (the stored object), MockRetrieveDefault (the default record otherwise) and MockRoundTrip |
| IpfsClient.ModeAndPin | frontend/utils/ipfs.js:169-191 | getMode is 'simulation' iff in simulation mode; before initialisation or in simulation pinData answers true |
| IpfsClient.Client.PinData | frontend/utils/ipfs.js:169-183 | see ModeAndPin: true before initialisation or in simulation mode, otherwise whether the pin succeeded |
| IpfsClient.Client.GetMode | frontend/utils/ipfs.js:189-191 | see ModeAndPin: 'simulation' exactly in simulation mode |
| IpfsClient.ConcatLength | frontend/utils/ipfs.js:97 | the concatenation is as long as the chunks together |
| Fhevm.XorBitsBound | frontend/utils/fhevm.js:89 | the bitwise XOR of two n-bit numbers has n bits |
| Fhevm.XorIsByte | frontend/utils/fhevm.js:89 | XOR of two bytes is a byte, so the Uint8Array store does not truncate it |
| Fhevm.XorBitsCommutes | frontend/utils/fhevm.js:89 | XOR is commutative |
| Fhevm.XorBitsCancel | frontend/utils/fhevm.js:89 | XOR-ing twice with the same number restores the original |
| Fhevm.XorCancel | frontend/utils/fhevm.js:88-90 | XOR-ing a data byte with its filler again recovers the value byte, and with the value byte recovers the filler |
| Fhevm.ShiftedByte | frontend/utils/fhevm.js:81-85 | `(v >> 8k) & 0xFF` is the k-th byte of a uint32 counted from the high end |
| Fhevm.ValueBytesBigEndian | frontend/utils/fhevm.js:81-85 | the four value bytes are the big-endian bytes of v and recombine to v |
| Fhevm.BaseDigits | frontend/utils/fhevm.js:81-85 | a uint32 is the sum of its four base-256 digits |
| Fhevm.HexByteIsPaddedRadix | frontend/utils/fhevm.js:99-100 | each byte prints as `toString(16).padStart(2, '0')` |
| Fhevm.HexOfRoundTrip | frontend/utils/fhevm.js:99-100 | the hex text of n bytes is 2n lowercase digits that read back as those bytes |
| Fhevm.MockEncryptUint32 | frontend/utils/fhevm.js:61-105 | values outside [0, 4294967295] raise '值超出 uint32 范围'; others give the mock ciphertext |
| Fhevm.FillData | frontend/utils/fhevm.js:68-90 | the 32 filler bytes with the value XOR-ed into bytes 0 to 3 |
| Fhevm.FillProof | frontend/utils/fhevm.js:93-96 | the 64 proof bytes |
| Fhevm.ValidateExact | frontend/utils/fhevm.js:147-159 | valid iff the object exists, data and proof are present, and both match `^0x[0-9a-fA-F]+$` |
| Fhevm.ValidateEncryptedData | frontend/utils/fhevm.js:147-159 | see ValidateExact: the object, data and proof present and both `^0x[0-9a-fA-F]+$`; MockCiphertextShape: every mock ciphertext passes |
| Fhevm.HexTextOf | frontend/utils/fhevm.js:99-100 | "0x" + hex of a non-empty byte string passes the hex check and reads back as the bytes |
| Fhevm.MockCiphertextShape | frontend/utils/fhevm.js:98-104 | data is "0x" + 64 lowercase digits, proof "0x" + 128, isSimulated holds, originalValue is v, and the result passes validateEncryptedData |
| Fhevm.MockCiphertext | frontend/utils/fhevm.js:98-104 | see MockCiphertextShape, DataTextShape, ProofTextShape and MockCiphertextRecovers: the hex data and proof, isSimulated, originalValue, and the value recoverable from the data |
| Fhevm.DataTextShape | frontend/utils/fhevm.js:99 | the data text is 66 characters of "0x" and lowercase hex |
| Fhevm.ProofTextShape | frontend/utils/fhevm.js:100 | the proof text is 130 characters of "0x" and lowercase hex |
| Fhevm.MockCiphertextRecovers | frontend/utils/fhevm.js:71-99 | parsing the data text and XOR-ing bytes 0 to 3 with the same filler recovers the value |
| Fhevm.DataBytesRecover | frontend/utils/fhevm.js:81-90 | XOR-ing the first four data bytes with the filler gives back v's big-endian bytes |
| Fhevm.MockDecryptAsWritten | frontend/utils/fhevm.js:108-113 | as written, decrypt returns v for any nonzero v but rejects the encryption of 0, and any non-simulated input |
| Fhevm.MockDecryptUint32 | frontend/utils/fhevm.js:108-113 | see MockDecryptAsWritten: the originalValue of a simulated nonzero encryption, the error for 0 and for non-simulated input |
| Fhevm.MockDecryptRoundTrip | frontend/utils/fhevm.js:108-113 | corrected: decrypting any mock encryption returns its value, and non-simulated or valueless input is rejected |
| Fhevm.GlucoseTenths | frontend/utils/fhevm.js:50-55 | a reading in [20, 600] scales to an integer in [200, 6000], inside uint32 |
| Fhevm.MockEncryptGlucose | frontend/utils/fhevm.js:183-192 | readings outside 20 to 600 raise the range error; others encrypt round(g·10), in [200, 6000] |
| Fhevm.Client.constructor | frontend/utils/fhevm.js:4-9 | no key, not initialised, simulation mode |
| Fhevm.Client.Initialize | frontend/utils/fhevm.js:11-36 | always initialised in simulation mode; in a browser it sets the all-zero key and answers true |
| Fhevm.Client.EncryptUint32 | frontend/utils/fhevm.js:38-45 | a first use initialises (simulation mode, and the zero key in a browser), a later one keeps mode and key; then answers the mock encryption |
| Fhevm.Client.EncryptBloodGlucose | frontend/utils/fhevm.js:47-58 | the 20 to 600 check comes first and changes nothing; an accepted reading initialises as encryptUint32 does and is encrypted as its tenths, in [200, 6000] |
| Fhevm.Client.EncryptBatch | frontend/utils/fhevm.js:138-144 | one ciphertext per value, in order, or the uint32 error when any value is out of range; an empty batch changes nothing, another initialises on its first value |
| Fhevm.Client.EncryptGlucoseBatch | frontend/utils/fhevm.js:195-198 | the batch of round(v·10) with no glucose range check, only the uint32 check, initialising as encryptBatch does |
| Fhevm.ScaledReadings | frontend/utils/fhevm.js:196 | one scaled value per reading |
| Fhevm.ScaledReadingsRange | frontend/utils/fhevm.js:196 | each scaled value is round(v·10); readings within [20, 600] land in [200, 6000] |
| Fhevm.PublicKeyAndMode | frontend/utils/fhevm.js:115-135 | without a key getPublicKey answers "0x" + 64 zeros; getMode is always 'simulation'; hasPublicKey is whether a key is set |
| Fhevm.Client.GetPublicKey | frontend/utils/fhevm.js:115-117 | see PublicKeyAndMode: the zero key "0x" + 64 zeros without a key |
| Fhevm.Client.GetMode | frontend/utils/fhevm.js:123-125 | see PublicKeyAndMode: always 'simulation' |
| Fhevm.Client.GetStatus | frontend/utils/fhevm.js:127-135 | see PublicKeyAndMode: `hasPublicKey` exactly when a key is set |
| Analytics.FetchRealPatientData | frontend/components/AnalyticsChart.js:30-70 | the nested loops push, in record order, exactly the rows the row-extraction function describes |
| Analytics.ReadingRowsExact | frontend/components/AnalyticsChart.js:42-57 | one row per reading with a truthy numeric value, carrying the patient's ID, age, and gender and type defaulted to 'unknown'; no qualifying reading gives no row |
| Analytics.AllRowsAppend | frontend/components/AnalyticsChart.js:35-63 | the rows of two lists of records are the rows of each, in order |
| Analytics.RowsOfListedPatients | frontend/components/AnalyticsChart.js:35-46 | every row belongs to a listed patient |
| Analytics.FailedRecordAddsNothing | frontend/components/AnalyticsChart.js:36-62 | a record whose fetch fails or whose bloodSugar is not an array contributes nothing |
| Analytics.AllRows | frontend/components/AnalyticsChart.js:30-70 | see FetchRealPatientData, ReadingRowsExact, AllRowsAppend, RowsOfListedPatients and FailedRecordAddsNothing |
| Analytics.BandOf | frontend/components/AnalyticsChart.js:90-92 | each reading gets the band whose bounds contain it: below 70, 70 to 140 inclusive, above 140 |
| Analytics.BandsPartition | frontend/components/AnalyticsChart.js:90-92 | every reading lies in exactly one band |
| Analytics.CountBand | frontend/components/AnalyticsChart.js:90-92 | a band count never exceeds the number of readings |
| Analytics.BandCountsSum | frontend/components/AnalyticsChart.js:90-102 | the three band counts add up to the number of readings |
| Analytics.SummaryCounts | frontend/components/AnalyticsChart.js:73-104 | empty input gives the all-zero summary without a total; otherwise the total is the row count and the band counts sum to it |
| Analytics.AnalyzeRealData | frontend/components/AnalyticsChart.js:73-104 | see SummaryCounts: the all-zero summary for no data, otherwise band counts that sum to the total |
| Analytics.ChartShapes | frontend/components/AnalyticsChart.js:241-307 | empty input gives one '暂无数据' entry; otherwise four average entries and three distribution entries whose counts are the band counts and the total |
| Analytics.AverageData | frontend/components/AnalyticsChart.js:241-276 | see ChartShapes: the one placeholder entry for no data, otherwise three bands and the overall count |
| Analytics.DistributionData | frontend/components/AnalyticsChart.js:278-307 | see ChartShapes: the one placeholder entry for no data, otherwise the three band counts |
| Analytics.GroupsMeaning | frontend/components/AnalyticsChart.js:315-321 | the date groups have one key per date, holding that date's values in order |
| Analytics.NoValuesOff | frontend/components/AnalyticsChart.js:315-321 | a date no row has collects no values |
| Analytics.DateKeysMeaning | frontend/components/AnalyticsChart.js:323 | `Object.keys` lists each date once |
| Analytics.BuildDateGroups | frontend/components/AnalyticsChart.js:315-323 | the forEach loop builds the date groups and their key order |
| Analytics.BuildStep | frontend/components/AnalyticsChart.js:316-321 | one row adds its value to its date's group, creating the key at its first occurrence |
| Analytics.LexIrreflexive | frontend/components/AnalyticsChart.js:324 | the default sort order never puts a string before itself |
| Analytics.LexTransitive | frontend/components/AnalyticsChart.js:324 | the sort order is transitive |
| Analytics.LexTotal | frontend/components/AnalyticsChart.js:324 | any two different strings are ordered |
| Analytics.InsertAscending | frontend/components/AnalyticsChart.js:324 | inserting a new key into an ascending list keeps it ascending and adds exactly that key |
| Analytics.TailAscending | frontend/components/AnalyticsChart.js:324 | the rest of an ascending list is ascending and follows its head |
| Analytics.SortAscending | frontend/components/AnalyticsChart.js:324 | `.sort()` of distinct keys is ascending and has the same keys |
| Analytics.PicksEmpty | frontend/components/AnalyticsChart.js:329-330 | the values at indices of a residue modulo 3 are absent iff there are no more values than the residue |
| Analytics.TrendFallbacks | frontend/components/AnalyticsChart.js:326-337 | morning always averages the indices ≡ 0 (mod 3); evening falls back to the average iff the date has fewer than 3 readings |
| Analytics.LastThirty | frontend/components/AnalyticsChart.js:325 | `.slice(-30)` keeps the last min(30, n) keys in order |
| Analytics.SuffixAscending | frontend/components/AnalyticsChart.js:324-325 | a suffix of an ascending list is ascending, and what it drops is before its first key |
| Analytics.KeptLength | frontend/components/AnalyticsChart.js:323-325 | min(30, number of dates) dates are kept |
| Analytics.KeptOrder | frontend/components/AnalyticsChart.js:323-325 | the kept dates ascend, and every dropped date is earlier than the first one kept |
| Analytics.TrendPoints | frontend/components/AnalyticsChart.js:326-338 | one trend row per kept date, from that date's values |
| Analytics.TrendLength | frontend/components/AnalyticsChart.js:309-339 | the trend has one row per distinct date, at most 30 |
| Analytics.TrendAscending | frontend/components/AnalyticsChart.js:323-325 | the trend's dates are in ascending string order |
| Analytics.TrendOmitsEarlier | frontend/components/AnalyticsChart.js:325 | only the earliest dates are left out |
| Analytics.TrendPointsExact | frontend/components/AnalyticsChart.js:326-338 | each trend row is computed from exactly the values of its date |
| Analytics.TrendEmpty | frontend/components/AnalyticsChart.js:310-312 | no rows give an empty trend |
| Analytics.GenerateTrend | frontend/components/AnalyticsChart.js:309-339 | the imperative grouping and the mapping give the trend function's result |
| Analytics.Trend | frontend/components/AnalyticsChart.js:309-339 | see TrendLength, TrendAscending, TrendOmitsEarlier, TrendPointsExact, TrendEmpty and GenerateTrend |
| Analytics.Where | frontend/components/AnalyticsChart.js:378-390 | a filter never grows the data |
| Analytics.WhereMembers | frontend/components/AnalyticsChart.js:378-390 | a filter keeps exactly the rows that satisfy its predicate |
| Analytics.WhereSplits | frontend/components/AnalyticsChart.js:378-390 | three mutually exclusive, exhaustive filters split the rows without loss or overlap |
| Analytics.PartitionsCover | frontend/components/AnalyticsChart.js:378-390 | the gender, age and type filters, each with its unknown group, cover every row exactly once |
| Analytics.PatientsOfPart | frontend/components/AnalyticsChart.js:375-396 | a group's patients are among all patients, and a non-empty group has at least one |
| Analytics.GroupBounds | frontend/components/AnalyticsChart.js:392-397 | a non-empty group's n, its number of distinct patient IDs, is between 1 and the total |
| Analytics.StratumOfRules | frontend/components/AnalyticsChart.js:402-427 | a stratum is emitted iff one of its two known groups is non-empty; it then has 1 to 3 groups, and includes the unknown group when that is non-empty |
| Analytics.PartStratum | frontend/components/AnalyticsChart.js:402-427 | a stratum built from filters keeps its title and bounds every n by the number of patients |
| Analytics.PartitionStrata | frontend/components/AnalyticsChart.js:402-427 | the gender, age group and diabetes type strata appear exactly when a known group is non-empty, with the source's titles |
| Analytics.StratifiedEmpty | frontend/components/AnalyticsChart.js:364-373 | no rows give the single '暂无数据' stratum |
| Analytics.StratifiedFallback | frontend/components/AnalyticsChart.js:429-436 | the single overall stratum appears iff every known group is empty |
| Analytics.StratifiedGroupBounds | frontend/components/AnalyticsChart.js:392-436 | every emitted group has between 1 and the number of distinct patients |
| Analytics.StrataListed | frontend/components/AnalyticsChart.js:400-436 | the strata are gender, age, then type, in that order, or the fallback when none is emitted |
| Analytics.GenderStratumListed | frontend/components/AnalyticsChart.js:402-409 | a '性别' stratum is listed iff some row is male or female |
| Analytics.AgeStratumListed | frontend/components/AnalyticsChart.js:411-418 | a '年龄组' stratum is listed iff some row has a known age |
| Analytics.TypeStratumListed | frontend/components/AnalyticsChart.js:420-427 | a '糖尿病类型' stratum is listed iff some row is of type 1 or type 2 |
| Analytics.Stratified | frontend/components/AnalyticsChart.js:363-437 | see StratifiedEmpty, StratifiedFallback, StratifiedGroupBounds and the three StratumListed lemmas |
| Analytics.AgesOf | frontend/components/AnalyticsChart.js:456 | the ages of the valid rows, in order |
| Analytics.ValuesOf | frontend/components/AnalyticsChart.js:457 | the values of the valid rows, in order |
| Analytics.CrossSumStep | frontend/components/AnalyticsChart.js:465-468 | one loop step adds one deviation product to the numerator |
| Analytics.SquareSumStep | frontend/components/AnalyticsChart.js:465-470 | one loop step adds one squared deviation to a denominator |
| Analytics.Deviations | frontend/components/AnalyticsChart.js:461-471 | the loop accumulates exactly the cross sum and the two squared sums |
| Analytics.AgeFromValidRows | frontend/components/AnalyticsChart.js:453-478 | the age row computed from the valid rows by the loop |
| Analytics.FactorRow | frontend/components/AnalyticsChart.js:447-487 | only the age factor is computed; any other factor is uncorrelated |
| Analytics.GenerateCorrelation | frontend/components/AnalyticsChart.js:439-488 | the mapping over the factors gives the correlation function's result |
| Analytics.CorrelationShape | frontend/components/AnalyticsChart.js:439-447 | empty input gives no rows; otherwise the three factors in their fixed order, BMI and duration always uncorrelated |
| Analytics.CorrelationData | frontend/components/AnalyticsChart.js:439-488 | see CorrelationShape, AgeCorrelationComputed, AgeCorrelationLabels and GenerateCorrelation |
| Analytics.AgeCorrelationComputed | frontend/components/AnalyticsChart.js:452-477 | age is only correlated with at least two rows having a truthy age and value and positive spreads |
| Analytics.CorrelatedLabels | frontend/components/AnalyticsChart.js:473-485 | the label is '无相关' iff the correlation is 0, otherwise '正' or '负' plus its strength; pValue is 0.01 above 0.3 and 0.5 otherwise |
| Analytics.AgeCorrelationLabels | frontend/components/AnalyticsChart.js:448-486 | a zero age correlation is labelled '无相关', and pValue stays 1 exactly when nothing was computed |
| DiabetesSurvey.Get | frontend/components/DiabetesSurvey.js:73-97 | a field reads as text exactly when the form holds it, and then as the form's text |
| DiabetesSurvey.BuildErrors | frontend/components/DiabetesSurvey.js:69-98 | the sequence of `if` statements builds exactly the error map of the validation rules |
| DiabetesSurvey.CheckOrderSplit | frontend/components/DiabetesSurvey.js:72-97 | the four groups of checks, in source order, make up the whole check order |
| DiabetesSurvey.BasicChecks | frontend/components/DiabetesSurvey.js:73-76 | the age, gender, height and weight checks extend the errors by those four fields |
| DiabetesSurvey.DiabetesChecks | frontend/components/DiabetesSurvey.js:79-87 | the diabetes type, diagnosis year and blood sugar checks extend the errors by those three fields |
| DiabetesSurvey.LifestyleChecks | frontend/components/DiabetesSurvey.js:90-97 | the lifestyle and treatment checks extend the errors by those six fields |
| DiabetesSurvey.LifestyleHabits | frontend/components/DiabetesSurvey.js:90-92 | the exercise, diet and smoking checks extend the errors by those three fields |
| DiabetesSurvey.TreatmentChecks | frontend/components/DiabetesSurvey.js:93-97 | the alcohol, insulin and family history checks extend the errors by those three fields |
| DiabetesSurvey.AfterSnoc | frontend/components/DiabetesSurvey.js:72-97 | running one more check is applying that check to the errors so far |
| DiabetesSurvey.ErrorsAfterExact | frontend/components/DiabetesSurvey.js:72-97 | after any prefix of checks, a field has an error iff it was checked and fails, and the error is that field's message |
| DiabetesSurvey.SurveyForm.constructor | frontend/components/DiabetesSurvey.js:22-51 | the form starts with every field empty and no errors |
| DiabetesSurvey.SurveyForm.HandleInputChange | frontend/components/DiabetesSurvey.js:53-67 | the named field takes the value and its error, if any, is blanked; nothing else changes |
| DiabetesSurvey.SurveyForm.ValidateForm | frontend/components/DiabetesSurvey.js:69-101 | the errors become those of the validation rules, and the form is valid iff there are none |
| DiabetesSurvey.SurveyForm.HandleSubmit | frontend/components/DiabetesSurvey.js:103-122 | a submission happens iff validation finds no error, and it carries the form, the BMI text and the timestamp |
| DiabetesSurvey.ClearedErrors | frontend/components/DiabetesSurvey.js:61-66 | the same fields have errors; the edited field's becomes empty, the others are unchanged |
| DiabetesSurvey.Initial | frontend/components/DiabetesSurvey.js:22-49 | the initial form holds all seventeen fields, each empty |
| DiabetesSurvey.ErrorsExact | frontend/components/DiabetesSurvey.js:69-98 | a field has an error iff it fails its rule, and the error is that field's message |
| DiabetesSurvey.RequiredFieldRule | frontend/components/DiabetesSurvey.js:73-97 | a required field has an error iff it is empty or missing, with that field's required message |
| DiabetesSurvey.DiagnosisYearRule | frontend/components/DiabetesSurvey.js:80-82 | the diagnosis year is reported iff it is empty and the diabetes type is not 'none' |
| DiabetesSurvey.BloodSugarRule | frontend/components/DiabetesSurvey.js:83-87 | an empty blood sugar is required, a negative parsed one is invalid, anything else passes |
| DiabetesSurvey.OptionalFieldsNeverReported | frontend/components/DiabetesSurvey.js:69-98 | medication, complications, HbA1c and notes never get an error |
| DiabetesSurvey.ValidIff | frontend/components/DiabetesSurvey.js:99-100 | the form is valid iff every required field is filled, the diagnosis year is filled or the type is 'none', and the blood sugar is filled and not negative |
| DiabetesSurvey.FreshFormReportsEverything | frontend/components/DiabetesSurvey.js:69-98 | validating the untouched form reports exactly the checked fields |
| DiabetesSurvey.EditIsLocal | frontend/components/DiabetesSurvey.js:53-58 | editing one field does not change any other field's error, except the diagnosis year after a type change |
| DiabetesSurvey.FillingFixesField | frontend/components/DiabetesSurvey.js:53-58 | filling a required field with non-empty text clears its error |
| ComprehensiveSurvey.InitialForm | frontend/components/ComprehensiveSurvey.js:34-82 | every text field starts as '' and every checkbox group as an empty array, and there is no other field |
| ComprehensiveSurvey.NextOf | frontend/components/ComprehensiveSurvey.js:107-111 | one module forward, except on the last, staying within 1..4 |
| ComprehensiveSurvey.PrevOf | frontend/components/ComprehensiveSurvey.js:113-117 | one module back, except on the first, staying within 1..4 |
| ComprehensiveSurvey.NavigationInverse | frontend/components/ComprehensiveSurvey.js:107-117 | away from the ends, next then previous (or previous then next) returns to the same module |
| ComprehensiveSurvey.EndsReachable | frontend/components/ComprehensiveSurvey.js:107-117 | from any module three steps forward reach module 4 and three steps back module 1 |
| ComprehensiveSurvey.ProgressValues | frontend/components/ComprehensiveSurvey.js:791 | the rounded progress is 25, 50, 75 or 100 percent |
| ComprehensiveSurvey.Progress | frontend/components/ComprehensiveSurvey.js:791 | see ProgressValues: 25 times the module, so 25, 50, 75 or 100 |
| ComprehensiveSurvey.SubmitOnlyOnLastModule | frontend/components/ComprehensiveSurvey.js:821-856 | the submit button replaces "next" exactly on module 4 |
| ComprehensiveSurvey.Characters | frontend/components/ComprehensiveSurvey.js:91 | spreading a string gives its characters, one string each, in order |
| ComprehensiveSurvey.CheckboxValue | frontend/components/ComprehensiveSurvey.js:87-93 | checking appends the value; unchecking leaves an array without the value; the update throws exactly when unchecking on a non-empty text value |
| ComprehensiveSurvey.CheckboxOnArray | frontend/components/ComprehensiveSurvey.js:90-92 | on an array, checking appends and unchecking removes every occurrence, keeping the rest in order |
| ComprehensiveSurvey.CheckThenUncheck | frontend/components/ComprehensiveSurvey.js:90-92 | checking then unchecking a box not yet in the array restores the array |
| ComprehensiveSurvey.Survey.constructor | frontend/components/ComprehensiveSurvey.js:31-82 | the survey starts on module 1 with the initial form |
| ComprehensiveSurvey.Survey.NextModule | frontend/components/ComprehensiveSurvey.js:107-111 | the module moves as NextOf says and the form is untouched |
| ComprehensiveSurvey.Survey.PrevModule | frontend/components/ComprehensiveSurvey.js:113-117 | the module moves as PrevOf says and the form is untouched |
| ComprehensiveSurvey.Survey.HandleInputChange | frontend/components/ComprehensiveSurvey.js:94-99 | exactly the named field takes the text value |
| ComprehensiveSurvey.Survey.HandleCheckboxChange | frontend/components/ComprehensiveSurvey.js:87-93 | the named group takes the checkbox update, or the form stays as it was when the update throws |
| ComprehensiveSurvey.Survey.HandleSubmit | frontend/components/ComprehensiveSurvey.js:102-105 | the form is submitted as it stands |
| PatientPage.GlucoseFormError | frontend/pages/patient.js:78-92 | the form is accepted iff the glucose parses to a value within 20..600 and a timestamp is given |
| PatientPage.GlucoseFormRules | frontend/pages/patient.js:79-91 | an unparseable or out-of-range glucose gives the range message; an in-range one gives the timestamp message iff the timestamp is empty |
| PatientPage.GetGlucoseLevel | frontend/pages/patient.js:215-220 | low below 70, normal from 70 to 140, high above 140, and high for an unparseable value; the three bands do not overlap |
| PatientPage.LevelMatchesAnalyticsBand | frontend/pages/patient.js:215-220 | the page's badge uses the same band edges as the analytics chart |
| PatientPage.Page.constructor | frontend/pages/patient.js:34-42 | the page starts not submitting, with an empty glucose form stamped with the current minute |
| PatientPage.Page.HandleGlucoseSubmit | frontend/pages/patient.js:94-158 | a failed guard emits only its own effect; otherwise the submission effects follow, `isSubmitting` ends false, and the form is reset only when both the upload and the chain submission succeed |
| PatientPage.Page.Submit | frontend/pages/patient.js:109-157 | the upload, chain and toast effects in source order, and the reset form after a successful chain submission |
| PatientPage.GuardOrder | frontend/pages/patient.js:97-107 | no account connects the wallet; then a wrong network and then an invalid form give an error toast; all pass iff the account is set, the chain is Sepolia and the form is valid |
| PatientPage.GuardsComeFirst | frontend/pages/patient.js:97-107 | a failed guard never uploads or submits to the chain |
| PatientPage.UploadBeforeChain | frontend/pages/patient.js:112-141 | the upload always comes second; a failed upload never reaches the chain; after a successful one the chain submission carries its CID |
| PatientPage.ReloadOnlyAfterChain | frontend/pages/patient.js:143-151 | the submissions are reloaded iff the upload succeeded and the chain accepted the data |
| ResearcherPage.ToggleFactor | frontend/pages/researcher.js:312-318 | the factor is selected afterwards iff it was not before; every other factor keeps its selection |
| ResearcherPage.WithoutDistinct | frontend/pages/researcher.js:315 | filtering out a factor keeps a duplicate-free list duplicate-free |
| ResearcherPage.ToggleKeepsDistinct | frontend/pages/researcher.js:312-318 | toggling keeps the selection duplicate-free |
| ResearcherPage.ToggleTwice | frontend/pages/researcher.js:312-318 | toggling an absent factor twice restores the list; toggling a present one twice moves it to the end |
| ResearcherPage.GuardChainOrder | frontend/pages/researcher.js:320-349 | each check blocks exactly when every earlier check passed and it fails: account, network, permission, type, factors, patient data |
| ResearcherPage.RequestedIffAllPass | frontend/pages/researcher.js:320-351 | the request is made iff all six checks pass, and an unparseable submission count does not block |
| ResearcherPage.FirstBlock | frontend/pages/researcher.js:320-349 | see GuardChainOrder (each check blocks iff the earlier ones pass) and RequestedIffAllPass |
| ResearcherPage.StuckAfterRefusedRequest | frontend/pages/researcher.js:351-397 | as written, a request answered with false leaves the running flag set with no completion scheduled |
| ResearcherPage.RunningAfterRequest | frontend/pages/researcher.js:351-397 | corrected: the analysis stays running iff its completion is scheduled |
| ResearcherPage.RunningFlagDiffersOnlyWhenRefused | frontend/pages/researcher.js:361-397 | the corrected and the as-written flags differ only for a request answered with false |
| ResearcherPage.AnalysisEntry | frontend/pages/researcher.js:373-383 | the new entry has the nine keys, `id` and `timestamp` from their own two `Date.now()` readings, the type's id and name, completed true, the fee, a 'QmResult' CID and a copy of the factors |
| ResearcherPage.LoadedHistory | frontend/pages/researcher.js:184-201 | missing or unparseable saved history loads as the empty list |
| ResearcherPage.HistoryRoundTrip | frontend/pages/researcher.js:144-147 | a saved history loads back unchanged |
| ResearcherPage.Researcher.constructor | frontend/pages/researcher.js:37-44 | the page starts unauthorised with fee '0', no history, nothing selected and not running |
| ResearcherPage.Researcher.CheckAuthorization | frontend/pages/researcher.js:156-171 | whatever the contract answers, or if it throws, the researcher ends authorised; nothing else changes |
| ResearcherPage.Researcher.LoadAnalysisFee | frontend/pages/researcher.js:173-182 | the fee becomes the contract's answer, or '0.001' when the lookup fails |
| ResearcherPage.Researcher.LoadAnalysisHistory | frontend/pages/researcher.js:184-201 | in a browser the history becomes what storage holds under 'analysisHistory'; elsewhere it is unchanged |
| ResearcherPage.Researcher.SaveAnalysisHistory | frontend/pages/researcher.js:144-147 | the history and the storage key both take the new history, which loads back unchanged |
| ResearcherPage.Researcher.ClearAnalysisHistory | frontend/pages/researcher.js:150-154 | the history is emptied and the key removed, so a reload gives the empty list |
| ResearcherPage.Researcher.SelectAnalysisType | frontend/pages/researcher.js:211-218 | the type is selected, the factors are cleared and the factor selection opens |
| ResearcherPage.Researcher.HandleFactorToggle | frontend/pages/researcher.js:312-318 | the selection is toggled for that factor and nothing else changes |
| ResearcherPage.Researcher.HandleRunAnalysis | frontend/pages/researcher.js:320-397 | the first failing check blocks with no state change; otherwise the request is made and the running flag follows the corrected rule |
| ResearcherPage.Researcher.CompleteAnalysis | frontend/pages/researcher.js:372-391 | the entry is prepended (newest first, one longer), saved, and the selection and running flag are reset |
| Wallet.LastFour | frontend/contexts/WalletContext.js:181 | `slice(-4)` keeps the last four characters, or the whole of a shorter string |
| Wallet.FormatAddress | frontend/contexts/WalletContext.js:179-182 | a falsy address gives ''; otherwise the first six characters, '...', and the last four |
| Wallet.FormatFullAddress | frontend/contexts/WalletContext.js:179-182 | a 42-character address gives 13 characters: its first six, '...', its last four |
| Wallet.ChainIdOf | frontend/contexts/WalletContext.js:155 | `parseInt(chainId, 16).toString()`: 'NaN' when no hex digit follows the optional sign and '0x' |
| Wallet.DecimalIsSepolia | frontend/contexts/WalletContext.js:175-177 | the decimal text of an integer equals '11155111' iff the integer is 11155111 |
| Wallet.IsSepolia | frontend/contexts/WalletContext.js:175-177 | see DecimalIsSepolia, ChainChangedSepolia and SwitchOnlyOffSepolia: true exactly for the chain ID '11155111' |
| Wallet.SepoliaDecimal | frontend/contexts/WalletContext.js:100 | 11155111 prints as '11155111' |
| Wallet.SepoliaDigits | frontend/contexts/WalletContext.js:176 | the decimal digits '11155111' denote 11155111 |
| Wallet.ChainChangedSepolia | frontend/contexts/WalletContext.js:154-177 | after a chain change the network counts as Sepolia iff the hex chain ID parses to 11155111 |
| Wallet.SepoliaHexIsSepolia | frontend/contexts/WalletContext.js:23 | the chain ID '0xaa36a7' is stored as '11155111' |
| Wallet.SepoliaHexDigits | frontend/contexts/WalletContext.js:23 | every character of 'aa36a7' is a hex digit |
| Wallet.SepoliaHexValue | frontend/contexts/WalletContext.js:23 | the hex digits 'aa36a7' denote 11155111 |
| Wallet.SwitchToSepolia | frontend/contexts/WalletContext.js:114-136 | the switch succeeds iff the wallet switches, or it answers 4902 and adding the chain succeeds; any other error propagates unchanged |
| Wallet.WalletState.constructor | frontend/contexts/WalletContext.js:15-20 | all state starts null or false |
| Wallet.WalletState.DisconnectWallet | frontend/contexts/WalletContext.js:138-161 | account, provider, signer, chain ID and error become null |
| Wallet.WalletState.HandleAccountsChanged | frontend/contexts/WalletContext.js:146-152 | an empty list disconnects; otherwise only the account changes, to the first entry |
| Wallet.WalletState.HandleChainChanged | frontend/contexts/WalletContext.js:154-157 | the chain ID becomes the decimal text of the hex ID and nothing else changes |
| Wallet.WalletState.CheckConnection | frontend/contexts/WalletContext.js:55-74 | a wallet listing accounts sets the provider, the signer, the first account and the decimal chain ID; otherwise nothing changes |
| Wallet.WalletState.ConnectWallet | frontend/contexts/WalletContext.js:76-112 | without a wallet the install error and false; a failed connection records its message; a connection sets the account and chain, switches only off Sepolia, and returns true iff no switch was needed or the switch succeeded |
| Wallet.SwitchOnlyOffSepolia | frontend/contexts/WalletContext.js:100-102 | the switch is requested iff the network's chain ID is not 11155111 |
| ServicesConfig.EnabledOnlyByTrue | frontend/config/services.js:13 | a feature is enabled only by the exact text 'true'; 'TRUE', '1' and an unset variable leave it off |
| ServicesConfig.Enabled | frontend/config/services.js:13 | see EnabledOnlyByTrue: only the exact text 'true' enables a feature |
| ServicesConfig.GatewayUrl | frontend/config/services.js:7 | the configured gateway when the variable is truthy, Zama's Sepolia gateway otherwise |
| ServicesConfig.IpfsVersionUrlValue | frontend/config/services.js:104 | the IPFS probe goes to https://ipfs.infura.io:5001/api/v0/version |
| ServicesConfig.DefaultGatewayProbe | frontend/config/services.js:93 | without an override the gateway probe goes to https://gateway.sepolia.zama.ai/health |
| ServicesConfig.CheckServiceHealth | frontend/config/services.js:84-117 | each flag holds iff its probe answered `ok`, a throw leaves it false, the contract flag iff an address is set; a GET to the gateway, then a POST to IPFS |
| ServicesConfig.ChoiceOf | frontend/config/services.js:124-131 | a service is used for real iff it is healthy and enabled |
| ServicesConfig.Recommend | frontend/config/services.js:123-132 | FHEVM is real iff healthy and encryption is enabled; IPFS is real iff healthy and upload is enabled |
| ServicesConfig.FallbackIsNotReal | frontend/config/services.js:124-131 | `fallbackToMock` is the negation of `useReal` for both services, and the contract flag plays no part |
| ServicesConfig.GetRecommendedConfig | frontend/config/services.js:120-133 | a service is real iff its probe answered `ok` and its flag is 'true'; otherwise it falls back to the mock |
| Lists.Without | frontend/components/ComprehensiveSurvey.js:92 | `filter(item => item !== value)` never lengthens the array |
| Lists.WithoutMembers | frontend/components/ComprehensiveSurvey.js:92 | after the filter an item is present iff it was present and differs from the value |
| Lists.WithoutCounts | frontend/pages/researcher.js:315 | the filter removes every occurrence of the value and keeps every other item as often as before |
| Lists.WithoutAppend | frontend/components/ComprehensiveSurvey.js:92 | filtering a concatenation filters each part |
| Lists.WithoutAbsent | frontend/pages/researcher.js:315 | filtering out an absent value changes nothing |
| Lists.WithoutAppended | frontend/components/ComprehensiveSurvey.js:91-92 | appending a new value and filtering it out restores the array |
| Storage.LocalStorage.GetItem | frontend/pages/researcher.js:188 | `getItem` answers the stored item iff the key is present |
| Storage.LocalStorage.SetItem | frontend/pages/researcher.js:146 | `setItem` stores the serialised value under the key and changes no other key |
| Storage.LocalStorage.RemoveItem | frontend/pages/researcher.js:152 | `removeItem` removes exactly that key |
| Strs.Utf16Units | frontend/services/filebaseService.js:6-8 | `str.length` counts UTF-16 code units (at least one per character), each below 0x10000, which `charCodeAt` reads |
| Strs.Utf16UnitsBmp | frontend/services/filebaseService.js:6-8 | for text within the Basic Multilingual Plane, the code units are the characters' own code points |
| Strs.Utf16UnitsAppend | frontend/services/filebaseService.js:6-8 | the code units of a concatenation are those of each part |
| Strs.ToRadixValue | frontend/services/filebaseService.js:12 | `toString(radix)` prints digits that read back as the number |
| Strs.ToRadixLength | frontend/services/filebaseService.js:12 | a number below radix^k prints with at most k digits |
| Strs.PadEnd | frontend/services/filebaseService.js:206 | `padEnd(n, c)` keeps the text and fills with c up to length n |
| Strs.Prefix | frontend/services/filebaseService.js:206 | `substring(0, n)` keeps the first min(n, length) characters |
| Strs.DigitPrefix | frontend/contexts/WalletContext.js:155 | `parseInt` reads the longest run of leading digits of the radix |
| Strs.JsonQuote | frontend/services/filebaseService.js:6 | `JSON.stringify` of a string is quoted text |

## Left out

- Network and SDK calls are outcome parameters. They are not executed. This covers:
  - the S3 upload, the Pinata POST and gateway fetches;
  - the ipfs-http-client `add`/`cat`/`pin`;
  - ethers provider, signer and contract calls.
- The orchestration in ContractContext.js is not part of this model. Only the three ways a `requestAnalysis` call can end, as seen by the researcher page, are modelled.
- The Solidity contract is not part of this model. It is exercised by the tests and the deploy scripts.
- Codec.DecryptData takes `JSON.parse` as the parameter `parses`, which says whether the parse returns. The parsed value is not built, so a success carries the decoded JSON text.
- PatientIndex.LoadIndex keeps only the string values of the stored JSON as CIDs. A number, `null`, object or array value that the source's `Map` would hold is dropped.
- PatientIndex.LoadIndex gives a stored string one entry per Dafny character. For a character above U+FFFF, `Object.entries` gives two entries, one per surrogate half.
- FilebaseService.FilebaseIPFSService.LoadPatientRecords installs the index of PatientIndex.LoadIndex, so non-string values in the stored JSON are missing from it.
- IpfsService.Service.LoadPatientRecords installs the index of PatientIndex.LoadIndex, so non-string values in the stored JSON are missing from it.
- JSON serialisation:
  - `JSON.stringify` is an injective constructor (`Storage.Serialized`).
  - Stored text that is not JSON is `Unparseable`.
  - JSON numbers are integers.
  - Where a service hashes or encodes a record, its JSON text is built explicitly.
- Lone UTF-16 surrogates cannot occur in a Dafny string. The `URIError` path of `encryptData` is therefore not modelled.
- JavaScript `Map` insertion order is not modelled. `getAllPatientRecords` is stated as a set of pairs.
- Timing is not modelled: `async` scheduling, `setTimeout` delays and the mock upload latencies. Each awaited step is one step of a method.
- Toast messages on the researcher page, the wallet and the services are not modelled. Their `console` logging is not modelled either. The patient page records its toasts as effects.
- i18n `t(...)` calls are modelled as their translation keys.
- The trend's date label, `toLocaleDateString('zh-CN', …)` of the date, is not modelled: the `date` of Analytics.TrendRow is the grouping key itself.
- Analytics.AgeFromValidRows and Analytics.AgeFromValid take the mean of the ages as numbers. In the source the survey's ages are strings, so `ages.reduce((sum, age) => sum + age, 0)` concatenates them: ages "40" and "60" give `"04060" / 2`, a mean age of 2030 instead of 50. The model states the numeric correlation, not that value.
- Analytics.LexLess orders the date keys character by character, by code point. `sort()` compares UTF-16 code units instead. The two orders differ only for keys that mix characters U+E000 to U+FFFF with characters above U+FFFF.
- The float statistics are not modelled: mean, standard deviation, normal rate and control rate. Readings and ages are exact reals, and the correlation is kept as an exact quotient. The percentages of the researcher charts are not modelled either.
- `generateLinearDataFromReal` of AnalyticsChart.js is not modelled, because it is random noise around the mean. `generateMockResults` of researcher.js is random too: its result is a parameter of `ResearcherPage.AnalysisEntry`.
- The mock FHE filler bytes and the seed are modelled as an abstract `Entropy` function and a `Stamp` parameter.
- The `parseInt` and `String(n)` helpers are simplified:
  - leading white space is not skipped;
  - precision loss above 2^53 is not modelled;
  - exponent notation above 10^21 is not modelled.
- DiabetesSurvey.SurveyForm.HandleInputChange is limited to the 17 declared fields. An input with another name is outside the model.
- DiabetesSurvey.SurveyForm.HandleSubmit takes the BMI text as a parameter: `toFixed(1)` of a floating-point quotient is not modelled.
- `handleSurveySubmit` of patient.js is not modelled. It repeats the glucose submission's upload-then-chain order for survey data.
- `handleGlucoseInputChange` of patient.js is not modelled. It is a one-field update like the survey forms' updates.
- ResearcherPage.LoadedHistory loads a saved value that parses but is not an array as the empty list, whereas the source would install the parsed value as the history.
- ResearcherPage.Researcher.CompleteAnalysis prepends to the history as it stands at completion. The source's timer closure reads the history from when the request was made, so an analysis finishing in between would be lost there.
- `window.location.reload()` after a chain change is not modelled.
- ResearcherPage.Researcher.HandleRunAnalysis leaves `isRunningAnalysis` as the corrected `RunningAfterRequest` says. When `requestAnalysis` answers false, the source as written keeps the flag set (ResearcherPage.StuckAfterRefusedRequest, see Findings).
- The wallet's `getBalance` is not modelled: `formatEther` is fixed-point formatting of a provider answer.
- Wallet.WalletState.CheckConnection treats a thrown error like an empty answer, because both leave the state unchanged.
- The event (un)subscription of the wallet `useEffect` is not modelled.
- React re-rendering is not modelled: each `setState` is an assignment to the state it names.
- `totalSubmissions` is modelled only as `parseInt`'s answer, with `None` for NaN.
- The UI pages and configuration are not part of this model: JSX rendering, Layout, LanguageSwitcher, IPFSStatus, the debug and test pages, and `next.config.js`.

## Findings

| source | as written | input that shows it | evidently intended | confidence | as-written member | corrected member |
|---|---|---|---|---|---|---|
| frontend/utils/fhevm.js:108-113 | `mockDecryptUint32` rejects any input whose `originalValue` is falsy | the mock encryption of 0, which `mockEncryptUint32` accepts | only inputs without an original value are rejected, so every mock encryption decrypts to its value | not executed | Fhevm.MockDecryptAsWritten | Fhevm.MockDecryptRoundTrip |
| frontend/pages/researcher.js:351-397 | `isRunningAnalysis` is reset only in the `catch` block and in the completion timer | `requestAnalysis` returning false without throwing, as it does on any contract error or without a contract (frontend/contexts/ContractContext.js:180-183, 199-203) | the flag is cleared whenever no completion is scheduled, so the run button is enabled again | not executed | ResearcherPage.StuckAfterRefusedRequest | ResearcherPage.RunningAfterRequest |
