/** `IPFSService` (frontend/services/ipfsService.js): the same patient index
    as the Filebase service, uploading through Pinata when both API keys are
    set and falling back to simulated CIDs otherwise. */
module IpfsService {

  import opened Wrappers
  import opened Strs
  import opened Hash
  import opened Storage
  import opened PatientIndex
  import FilebaseService

  const DefaultGateway: string := "https://ipfs.io/ipfs/"
  const DefaultUploadUrl: string := "https://api.pinata.cloud/pinning/pinJSONToIPFS"
  const UpdatedMessage: string := "记录已更新"
  const CreatedMessage: string := "记录已创建"

  /** The NEXT_PUBLIC_IPFS_* and NEXT_PUBLIC_PINATA_* environment variables. */
  datatype Env = Env(gateway: Field, uploadUrl: Field, apiKey: Field, secretKey: Field)

  /** What the Pinata POST does: a response that is not ok, a thrown
      error, or an ok response whose JSON has an `IpfsHash` property
      (possibly missing). */
  datatype PinOutcome = PinNotOk(statusText: string) | PinThrown | PinOk(ipfsHash: Field)

  /** `JSON.stringify` of the upload envelope `{encryptedData, patientId, timestamp}`. */
  function EnvelopeJson(encryptedData: string, patientId: string, timestamp: string): string
  {
    "{\"encryptedData\":" + JsonQuote(encryptedData) + ",\"patientId\":" + JsonQuote(patientId) +
    ",\"timestamp\":" + JsonQuote(timestamp) + "}"
  }

  /** The JSON text `submitPatientRecord` hands to `uploadToIPFS`. */
  function SubmissionJson(patientId: string, wallet: string, survey: Survey, timestamp: string): string
  {
    EnvelopeJson(EncryptedRecord(patientId, wallet, survey, timestamp), patientId, timestamp)
  }

  class Service {
    const baseUrl: string
    const uploadUrl: string
    const apiKey: Field
    const secretKey: Field
    const browser: bool
    const store: LocalStorage
    var records: map<string, Field>

    constructor(env: Env, browser: bool, store: LocalStorage)
      ensures this.browser == browser && this.store == store
      ensures baseUrl == OrElse(env.gateway, DefaultGateway) && uploadUrl == OrElse(env.uploadUrl, DefaultUploadUrl)
      ensures apiKey == env.apiKey && secretKey == env.secretKey
      ensures records == (if browser && LoadIndex(store.GetItem(IndexKey)).Some?
                          then LoadIndex(store.GetItem(IndexKey)).value else map[])
    {
      baseUrl := OrElse(env.gateway, DefaultGateway);
      uploadUrl := OrElse(env.uploadUrl, DefaultUploadUrl);
      apiKey := env.apiKey;
      secretKey := env.secretKey;
      this.browser := browser;
      this.store := store;
      records := map[];
      new;
      LoadPatientRecords();
    }

    /** `loadPatientRecords()`. */
    method LoadPatientRecords()
      modifies this
      ensures records == (if browser && LoadIndex(store.GetItem(IndexKey)).Some?
                          then LoadIndex(store.GetItem(IndexKey)).value else old(records))
    {
      if browser {
        var loaded := LoadIndex(store.GetItem(IndexKey));
        if loaded.Some? {
          records := loaded.value;
        }
      }
    }

    /** `savePatientRecords()`. */
    method SavePatientRecords()
      modifies store
      ensures store.items == if browser then old(store.items)[IndexKey := Serialized(IndexJson(records))]
                             else old(store.items)
    {
      if browser {
        store.SetItem(IndexKey, IndexJson(records));
      }
    }

    /** Pinata is used only when both keys are set. */
    predicate PinataConfigured()
      reads this
    {
      Truthy(apiKey) && Truthy(secretKey)
    }

    /** `uploadToIPFS(data)` on the JSON text of `data`: `result.IpfsHash`,
        which may be `undefined`. */
    function UploadToIPFS(dataJson: string, outcome: PinOutcome): Field
      reads this
    {
      if !PinataConfigured() then Text(SimulateIPFSUpload(dataJson))
      else
        match outcome
        case PinOk(ipfsHash) => ipfsHash
        case _ => Text(SimulateIPFSUpload(dataJson))
    }

    /** `submitPatientRecord(walletAddress, surveyData)`. */
    method SubmitPatientRecord(wallet: string, survey: Survey, timestamp: string, outcome: PinOutcome)
      returns (r: SubmitResult)
      modifies this, store
      ensures r.patientId == GeneratePatientId(wallet, survey.name, survey.idNumber)
      ensures r.cid == old(UploadToIPFS(SubmissionJson(r.patientId, wallet, survey, timestamp), outcome))
      ensures r.oldCid == Lookup(old(records), r.patientId)
      ensures r.message == if Truthy(r.oldCid) then UpdatedMessage else CreatedMessage
      ensures r.ipfsUrl == None
      ensures records == old(records)[r.patientId := r.cid]
      ensures store.items == if browser then old(store.items)[IndexKey := Serialized(IndexJson(records))]
                             else old(store.items)
    {
      var patientId := GeneratePatientId(wallet, survey.name, survey.idNumber);
      var cid := UploadToIPFS(SubmissionJson(patientId, wallet, survey, timestamp), outcome);
      var oldCid := StoreCid(patientId, cid);
      r := SubmitResult(patientId, cid, oldCid, if Truthy(oldCid) then UpdatedMessage else CreatedMessage, None);
    }

    /** The index update at the end of submitPatientRecord. */
    method StoreCid(patientId: string, cid: Field) returns (oldCid: Field)
      modifies this, store
      ensures oldCid == Lookup(old(records), patientId)
      ensures records == old(records)[patientId := cid]
      ensures store.items == if browser then old(store.items)[IndexKey := Serialized(IndexJson(records))]
                             else old(store.items)
    {
      oldCid := Lookup(records, patientId);
      records := records[patientId := cid];
      SavePatientRecords();
    }

    /** `getFromIPFS(cid)`: fetches `baseUrl + cid`. */
    function GetFromIPFS(cid: string, gateway: string -> FetchOutcome): (r: Result<Field, string>)
      reads this
      ensures r.Ok? <==> gateway(baseUrl + cid).Body?
      ensures r.Ok? ==> gateway(baseUrl + cid) == Body(r.value)
      ensures gateway(baseUrl + cid).NotOk? ==> r == Err(FetchFailedPrefix + gateway(baseUrl + cid).statusText)
    {
      match gateway(baseUrl + cid)
      case Thrown(message) => Err(message)
      case NotOk(statusText) => Err(FetchFailedPrefix + statusText)
      case Body(encryptedData) => Ok(encryptedData)
    }

    /** `getPatientRecord(patientId)`: never throws, reports failures. */
    function GetPatientRecord(patientId: string, gateway: string -> FetchOutcome, parses: string -> bool): GetResult
      reads this
    {
      var cid := Lookup(records, patientId);
      if !Truthy(cid) then Failed(NotFoundMessage)
      else
        match GetFromIPFS(cid.s, gateway)
        case Err(message) => Failed(message)
        case Ok(encryptedData) => DecryptFetched(encryptedData, cid.s, None, parses)
    }

    /** `getAllPatientRecords()`. */
    function GetAllPatientRecords(): set<Entry>
      reads this
    {
      Listing(records, None)
    }

    /** `deletePatientRecord(patientId)`. */
    method DeletePatientRecord(patientId: string) returns (deleted: bool)
      modifies this, store
      ensures deleted <==> patientId in old(records)
      ensures records == old(records) - {patientId}
      ensures store.items == if deleted && browser then old(store.items)[IndexKey := Serialized(IndexJson(records))]
                             else old(store.items)
    {
      deleted := patientId in records;
      records := records - {patientId};
      if deleted {
        SavePatientRecords();
      }
    }
  }

  /** A missing key, a response that is not ok, or a thrown error all give
      the simulated CID; otherwise the CID is Pinata's `IpfsHash`. */
  lemma UploadModes(s: Service, dataJson: string, outcome: PinOutcome)
    ensures !s.PinataConfigured() || !outcome.PinOk? ==>
              s.UploadToIPFS(dataJson, outcome) == Text(SimulateIPFSUpload(dataJson))
    ensures s.PinataConfigured() && outcome.PinOk? ==> s.UploadToIPFS(dataJson, outcome) == outcome.ipfsHash
  {
  }

  /** Both services derive the same patient ID from the same triple,
      and its simulated CID has the common shape. */
  lemma SameIdAndSimulation(wallet: string, survey: Survey, timestamp: string)
    ensures var id := GeneratePatientId(wallet, survey.name, survey.idNumber);
            var data := SubmissionJson(id, wallet, survey, timestamp);
            |SimulateIPFSUpload(data)| == 46 && StartsWith(SimulateIPFSUpload(data), "Qm") &&
            1 <= |id| <= 8
  {
    var id := GeneratePatientId(wallet, survey.name, survey.idNumber);
    PatientIdShape(wallet, survey.name, survey.idNumber);
    SimulatedCidShape(SubmissionJson(id, wallet, survey, timestamp));
  }

  /** The record fetched from `baseUrl + cid` decrypts to the submitted text. */
  lemma GetReturnsSubmittedRecord(s: Service, patientId: string, wallet: string, survey: Survey,
                                  timestamp: string, gateway: string -> FetchOutcome, parses: string -> bool)
    requires patientId in s.records && Truthy(s.records[patientId])
    requires gateway(s.baseUrl + s.records[patientId].s) == Body(Text(EncryptedRecord(patientId, wallet, survey, timestamp)))
    requires parses(RecordJson(patientId, wallet, survey.json, timestamp))
    ensures s.GetPatientRecord(patientId, gateway, parses) ==
            Found(RecordJson(patientId, wallet, survey.json, timestamp), s.records[patientId].s, None)
  {
    DecryptFetchedRecord(patientId, wallet, survey, timestamp, s.records[patientId].s, None, parses);
  }

  /** An unknown ID is a failure, never a thrown error. */
  lemma GetUnknownFails(s: Service, patientId: string, gateway: string -> FetchOutcome, parses: string -> bool)
    requires patientId !in s.records
    ensures s.GetPatientRecord(patientId, gateway, parses) == Failed(NotFoundMessage)
  {
  }

  /** The index either service saves is the index a fresh instance of the
      other loads, since both use the key 'patientRecords'. */
  method SharedWithFilebase(f: FilebaseService.FilebaseIPFSService, env: Env) returns (t: Service)
    requires f.Valid() && f.browser
    modifies f.store
    ensures t.records == f.records
  {
    f.SavePatientRecords();
    SaveLoadRoundTrip(f.records);
    t := new Service(env, true, f.store);
  }

  /** The other direction: a Filebase service opened after this service
      saved sees its CIDs (the `undefined` ones are not saved). */
  method SharedToFilebase(s: Service, env: FilebaseService.Env) returns (t: FilebaseService.FilebaseIPFSService)
    requires s.browser
    modifies s.store
    ensures t.records == TextEntries(s.records)
  {
    s.SavePatientRecords();
    SaveLoadRoundTrip(s.records);
    t := new FilebaseService.FilebaseIPFSService(env, true, s.store);
  }
}
