/** `FilebaseIPFSService` (frontend/services/filebaseService.js): the patient
    index backed by a Filebase S3 bucket, falling back to simulated CIDs
    whenever the S3 client is missing or an upload fails. The S3 SDK, the
    clock and the gateway are parameters: an upload outcome, a timestamp
    and a function from URL to fetch outcome. */
module FilebaseService {

  import opened Wrappers
  import opened Strs
  import opened Hash
  import opened Storage
  import opened PatientIndex

  const FilebaseGateway: string := "https://ipfs.filebase.io/ipfs/"
  const DefaultBucket: string := "diabetes-analytics"
  const NotInitializedMessage: string := "Filebase 未初始化"
  const UpdatedMessage: string := "记录已更新到 IPFS"
  const UploadedMessage: string := "记录已上传到 IPFS"
  const FilebaseMode: string := "Filebase IPFS"
  const SimulationMode: string := "模拟模式"

  /** The NEXT_PUBLIC_FILEBASE_* environment variables. */
  datatype Env = Env(accessKey: Field, secretKey: Field, bucket: Field)

  /** The credential check of initializeS3: both keys present, non-empty,
      and neither still the 'YOUR_' placeholder. */
  predicate CredentialsConfigured(env: Env)
  {
    Truthy(env.accessKey) && Truthy(env.secretKey) &&
    !Contains(env.accessKey.s, "YOUR_") && !Contains(env.secretKey.s, "YOUR_")
  }

  /** What `s3.upload(...).promise()` does: resolve with an ETag property
      (possibly missing), or reject. */
  datatype S3Outcome = S3Uploaded(etag: Field) | S3Failed

  /** `JSON.stringify` of the upload envelope
      `{encryptedData, patientId, timestamp, metadata: {...}}`. */
  function EnvelopeJson(encryptedData: string, patientId: string, timestamp: string): string
  {
    "{\"encryptedData\":" + JsonQuote(encryptedData) + ",\"patientId\":" + JsonQuote(patientId) +
    ",\"timestamp\":" + JsonQuote(timestamp) +
    ",\"metadata\":{\"type\":\"diabetes-patient-record\",\"encrypted\":true,\"version\":1}}"
  }

  /** The JSON text `submitPatientRecord` hands to `uploadToIPFS`. */
  function SubmissionJson(patientId: string, wallet: string, survey: Survey, timestamp: string): string
  {
    EnvelopeJson(EncryptedRecord(patientId, wallet, survey, timestamp), patientId, timestamp)
  }

  /** `getServiceStatus()`. */
  datatype ServiceStatus = ServiceStatus(initialized: bool, hasS3Client: bool, bucketName: string, recordCount: nat, mode: string)

  class FilebaseIPFSService {
    const bucketName: string
    /** `typeof window !== 'undefined' && window.localStorage`. */
    const browser: bool
    const store: LocalStorage
    var initialized: bool
    /** `!!this.s3`. */
    var hasS3: bool
    var records: map<string, Field>

    /** The S3 client exists exactly when `initialized` is set, and every
        CID this service records is a string. */
    ghost predicate Valid()
      reads this
    {
      hasS3 == initialized && Absent !in records.Values
    }

    constructor(env: Env, browser: bool, store: LocalStorage)
      ensures this.browser == browser && this.store == store
      ensures bucketName == OrElse(env.bucket, DefaultBucket)
      ensures records == (if browser && LoadIndex(store.GetItem(IndexKey)).Some?
                          then LoadIndex(store.GetItem(IndexKey)).value else map[])
      ensures initialized == CredentialsConfigured(env)
      ensures Valid()
    {
      bucketName := OrElse(env.bucket, DefaultBucket);
      this.browser := browser;
      this.store := store;
      initialized := false;
      hasS3 := false;
      records := map[];
      new;
      LoadPatientRecords();
      InitializeS3(env);
    }

    /** `initializeS3()`: sets up the client only for configured
        credentials, and leaves the service untouched otherwise. */
    method InitializeS3(env: Env)
      modifies this
      ensures initialized == (CredentialsConfigured(env) || old(initialized))
      ensures hasS3 == (CredentialsConfigured(env) || old(hasS3))
      ensures records == old(records)
    {
      if !CredentialsConfigured(env) {
        return;
      }
      hasS3 := true;
      initialized := true;
    }

    /** `loadPatientRecords()`. */
    method LoadPatientRecords()
      modifies this
      ensures records == (if browser && LoadIndex(store.GetItem(IndexKey)).Some?
                          then LoadIndex(store.GetItem(IndexKey)).value else old(records))
      ensures initialized == old(initialized) && hasS3 == old(hasS3)
    {
      if browser {
        var loaded := LoadIndex(store.GetItem(IndexKey));
        if loaded.Some? {
          records := loaded.value;
        }
      }
    }

    /** `savePatientRecords()`. */
    method SavePatientRecords()
      modifies store
      ensures store.items == if browser then old(store.items)[IndexKey := Serialized(IndexJson(records))]
                             else old(store.items)
    {
      if browser {
        store.SetItem(IndexKey, IndexJson(records));
      }
    }

    /** `uploadToIPFS(data)` on the JSON text of `data`. */
    function UploadToIPFS(dataJson: string, outcome: S3Outcome): string
      reads this
    {
      if !initialized || !hasS3 then SimulateIPFSUpload(dataJson)
      else
        match outcome
        case S3Failed => SimulateIPFSUpload(dataJson)
        case S3Uploaded(etag) => if Truthy(etag) then Without(etag.s, '"') else HashHex(dataJson)
    }

    /** `submitPatientRecord(walletAddress, surveyData)`. */
    method SubmitPatientRecord(wallet: string, survey: Survey, timestamp: string, outcome: S3Outcome)
      returns (r: SubmitResult)
      requires Valid()
      modifies this, store
      ensures Valid()
      ensures r.patientId == GeneratePatientId(wallet, survey.name, survey.idNumber)
      ensures r.cid == Text(old(UploadToIPFS(SubmissionJson(r.patientId, wallet, survey, timestamp), outcome)))
      ensures r.oldCid == Lookup(old(records), r.patientId)
      ensures r.message == if Truthy(r.oldCid) then UpdatedMessage else UploadedMessage
      ensures r.ipfsUrl == Some(FilebaseGateway + r.cid.s)
      ensures records == old(records)[r.patientId := r.cid]
      ensures store.items == if browser then old(store.items)[IndexKey := Serialized(IndexJson(records))]
                             else old(store.items)
      ensures initialized == old(initialized) && hasS3 == old(hasS3)
    {
      var patientId := GeneratePatientId(wallet, survey.name, survey.idNumber);
      var cid := UploadToIPFS(SubmissionJson(patientId, wallet, survey, timestamp), outcome);
      var oldCid := StoreCid(patientId, cid);
      r := SubmitResult(patientId, Text(cid), oldCid,
                        if Truthy(oldCid) then UpdatedMessage else UploadedMessage,
                        Some(FilebaseGateway + cid));
    }

    /** The index update at the end of submitPatientRecord: the old entry
        is read, overwritten, and the index saved. */
    method StoreCid(patientId: string, cid: string) returns (oldCid: Field)
      requires Valid()
      modifies this, store
      ensures Valid()
      ensures oldCid == Lookup(old(records), patientId)
      ensures records == old(records)[patientId := Text(cid)]
      ensures store.items == if browser then old(store.items)[IndexKey := Serialized(IndexJson(records))]
                             else old(store.items)
      ensures initialized == old(initialized) && hasS3 == old(hasS3)
    {
      oldCid := Lookup(records, patientId);
      records := records[patientId := Text(cid)];
      SavePatientRecords();
    }

    /** `getFromIPFS(cid)`: the `encryptedData` of the fetched body, or
        the message it throws. */
    function GetFromIPFS(cid: string, gateway: string -> FetchOutcome): (r: Result<Field, string>)
      reads this
      ensures !initialized || !hasS3 ==> r == Err(NotInitializedMessage)
      ensures r.Ok? <==> initialized && hasS3 && gateway(FilebaseGateway + cid).Body?
      ensures r.Ok? ==> gateway(FilebaseGateway + cid) == Body(r.value)
      ensures initialized && hasS3 && gateway(FilebaseGateway + cid).NotOk? ==>
                r == Err(FetchFailedPrefix + gateway(FilebaseGateway + cid).statusText)
    {
      if !initialized || !hasS3 then Err(NotInitializedMessage)
      else
        match gateway(FilebaseGateway + cid)
        case Thrown(message) => Err(message)
        case NotOk(statusText) => Err(FetchFailedPrefix + statusText)
        case Body(encryptedData) => Ok(encryptedData)
    }

    /** `getPatientRecord(patientId)`: never throws, reports failures. */
    function GetPatientRecord(patientId: string, gateway: string -> FetchOutcome, parses: string -> bool): GetResult
      reads this
    {
      var cid := Lookup(records, patientId);
      if !Truthy(cid) then Failed(NotFoundMessage)
      else
        match GetFromIPFS(cid.s, gateway)
        case Err(message) => Failed(message)
        case Ok(encryptedData) => DecryptFetched(encryptedData, cid.s, Some(FilebaseGateway + cid.s), parses)
    }

    /** `getAllPatientRecords()`. */
    function GetAllPatientRecords(): set<Entry>
      reads this
    {
      Listing(records, Some(FilebaseGateway))
    }

    /** `deletePatientRecord(patientId)`. */
    method DeletePatientRecord(patientId: string) returns (deleted: bool)
      requires Valid()
      modifies this, store
      ensures Valid()
      ensures deleted <==> patientId in old(records)
      ensures records == old(records) - {patientId}
      ensures store.items == if deleted && browser then old(store.items)[IndexKey := Serialized(IndexJson(records))]
                             else old(store.items)
      ensures initialized == old(initialized) && hasS3 == old(hasS3)
    {
      deleted := patientId in records;
      records := records - {patientId};
      if deleted {
        SavePatientRecords();
      }
    }

    /** `getServiceStatus()`. */
    function GetServiceStatus(): ServiceStatus
      reads this
    {
      ServiceStatus(initialized, hasS3, bucketName, |records|, if initialized then FilebaseMode else SimulationMode)
    }
  }

  /** Without a usable S3 client, or when the upload is rejected, the CID is
      the simulated one: 46 characters starting "Qm". */
  lemma UploadFallsBackToSimulation(s: FilebaseIPFSService, dataJson: string, outcome: S3Outcome)
    requires !s.initialized || !s.hasS3 || outcome.S3Failed?
    ensures s.UploadToIPFS(dataJson, outcome) == SimulateIPFSUpload(dataJson)
    ensures |s.UploadToIPFS(dataJson, outcome)| == 46 && StartsWith(s.UploadToIPFS(dataJson, outcome), "Qm")
  {
    SimulatedCidShape(dataJson);
  }

  /** An accepted upload names the ETag without its quotes, or the bare
      hash of the data when there is no ETag. */
  lemma UploadUsesETag(s: FilebaseIPFSService, dataJson: string, etag: Field)
    requires s.initialized && s.hasS3
    ensures Truthy(etag) ==> s.UploadToIPFS(dataJson, S3Uploaded(etag)) == Without(etag.s, '"')
    ensures !Truthy(etag) ==> s.UploadToIPFS(dataJson, S3Uploaded(etag)) == HashHex(dataJson)
    ensures forall i :: 0 <= i < |s.UploadToIPFS(dataJson, S3Uploaded(etag))| ==>
              s.UploadToIPFS(dataJson, S3Uploaded(etag))[i] != '"'
  {
    if !Truthy(etag) {
      HashHexShape(dataJson);
      var h := HashHex(dataJson);
      forall i | 0 <= i < |h| ensures h[i] != '"' {
        assert IsLowerHexDigit(h[i]);
      }
    }
  }

  /** getPatientRecord fails for an ID the index does not hold (or holds
      with an empty CID), and in simulation mode it fails for every ID. */
  lemma GetFailsWithoutRecordOrClient(s: FilebaseIPFSService, patientId: string, gateway: string -> FetchOutcome,
                                     parses: string -> bool)
    ensures !Truthy(Lookup(s.records, patientId)) ==> s.GetPatientRecord(patientId, gateway, parses) == Failed(NotFoundMessage)
    ensures Truthy(Lookup(s.records, patientId)) && !s.initialized ==>
              s.GetPatientRecord(patientId, gateway, parses) == Failed(NotInitializedMessage)
    ensures s.GetPatientRecord(patientId, gateway, parses).Found? ==> s.initialized && patientId in s.records
  {
  }

  /** An indexed record whose gateway body carries the encrypted record
      is returned as the record text, with its CID and gateway URL. */
  lemma GetReturnsSubmittedRecord(s: FilebaseIPFSService, patientId: string, wallet: string, survey: Survey,
                                  timestamp: string, gateway: string -> FetchOutcome, parses: string -> bool)
    requires s.initialized && s.hasS3
    requires patientId in s.records && Truthy(s.records[patientId])
    requires gateway(FilebaseGateway + s.records[patientId].s) ==
             Body(Text(EncryptedRecord(patientId, wallet, survey, timestamp)))
    requires parses(RecordJson(patientId, wallet, survey.json, timestamp))
    ensures s.GetPatientRecord(patientId, gateway, parses) ==
            Found(RecordJson(patientId, wallet, survey.json, timestamp), s.records[patientId].s,
                  Some(FilebaseGateway + s.records[patientId].s))
  {
    DecryptFetchedRecord(patientId, wallet, survey, timestamp, s.records[patientId].s,
                         Some(FilebaseGateway + s.records[patientId].s), parses);
  }

  /** The status reports the record count and names the mode by
      `initialized`. */
  lemma StatusReflectsState(s: FilebaseIPFSService)
    requires s.Valid()
    ensures s.GetServiceStatus().recordCount == |s.records| == |s.GetAllPatientRecords()|
    ensures s.GetServiceStatus().mode == FilebaseMode <==> s.initialized
    ensures s.GetServiceStatus().hasS3Client == s.GetServiceStatus().initialized
  {
    ListingExact(s.records, Some(FilebaseGateway));
  }

  /** After a save, a fresh instance over the same storage loads exactly
      the index that was saved. */
  method ReloadRestoresIndex(s: FilebaseIPFSService, env: Env) returns (t: FilebaseIPFSService)
    requires s.Valid() && s.browser
    modifies s.store
    ensures t.records == s.records
  {
    s.SavePatientRecords();
    SaveLoadRoundTrip(s.records);
    t := new FilebaseIPFSService(env, true, s.store);
  }
}
