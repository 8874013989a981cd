/** The IPFS helpers of frontend/utils/ipfs.js: the `IPFSClient` state
    machine with its local-storage mock, the mock CID, the gateway URL and
    the CID validator. The ipfs-http-client node, the clock and
    Math.random are parameters. */
module IpfsClient {

  import opened Wrappers
  import opened Strs
  import opened Storage
  import Codec
  import PatientIndex

  // ---------------------------------------------------------------------
  // Pure helpers
  // ---------------------------------------------------------------------

  const DefaultGateway: string := "https://ipfs.io/ipfs/"

  /** `getIPFSUrl(cid, gateway = 'https://ipfs.io/ipfs/')`. */
  function GetIPFSUrl(cid: string, gateway: Option<string>): (url: string)
  {
    (if gateway.Some? then gateway.value else DefaultGateway) + cid
  }

  /** The URL is the gateway (the default one when none is given)
      followed by the CID. */
  lemma GetIPFSUrlParts(cid: string, gateway: Option<string>)
    ensures gateway.None? ==> StartsWith(GetIPFSUrl(cid, gateway), DefaultGateway)
    ensures var g := if gateway.Some? then gateway.value else DefaultGateway;
            |GetIPFSUrl(cid, gateway)| == |g| + |cid| &&
            GetIPFSUrl(cid, gateway)[..|g|] == g && GetIPFSUrl(cid, gateway)[|g|..] == cid
  {
  }

  /** `[1-9A-HJ-NP-Za-km-z]`: the base58 alphabet (no 0, O, I or l). */
  predicate IsBase58(c: char)
  {
    ('1' <= c <= '9') || ('A' <= c <= 'H') || ('J' <= c <= 'N') || ('P' <= c <= 'Z') ||
    ('a' <= c <= 'k') || ('m' <= c <= 'z')
  }

  /** `[a-z2-7]`: the lower-case base32 alphabet. */
  predicate IsBase32Lower(c: char)
  {
    ('a' <= c <= 'z') || ('2' <= c <= '7')
  }

  /** `/^Qm[1-9A-HJ-NP-Za-km-z]{44}$|^bafy[a-z2-7]{55}$/.test(cid)`. */
  predicate IsValidCID(cid: string)
  {
    (|cid| == 46 && cid[..2] == "Qm" && forall i :: 2 <= i < 46 ==> IsBase58(cid[i])) ||
    (|cid| == 59 && cid[..4] == "bafy" && forall i :: 4 <= i < 59 ==> IsBase32Lower(cid[i]))
  }

  /** The validator accepts a CIDv0 of 46 characters or a "bafy" CIDv1 of
      59, and a '0' anywhere after "Qm" makes a 46-character string fail. */
  lemma ValidCIDForms(cid: string)
    ensures IsValidCID(cid) ==> (|cid| == 46 && StartsWith(cid, "Qm")) || (|cid| == 59 && StartsWith(cid, "bafy"))
    ensures |cid| == 46 && (exists i :: 2 <= i < 46 && cid[i] == '0') ==> !IsValidCID(cid)
  {
    if |cid| == 46 && (exists i :: 2 <= i < 46 && cid[i] == '0') {
      var i :| 2 <= i < 46 && cid[i] == '0';
      assert !IsBase58(cid[i]);
    }
  }

  /** "Qm" followed by text is valid exactly when the text is 44 base58
      characters; "bafy" followed by text exactly when it is 55 base32
      ones. */
  lemma ValidCIDExact(body: string)
    ensures IsValidCID("Qm" + body) <==> |body| == 44 && forall i :: 0 <= i < |body| ==> IsBase58(body[i])
    ensures IsValidCID("bafy" + body) <==> |body| == 55 && forall i :: 0 <= i < |body| ==> IsBase32Lower(body[i])
  {
    var v0 := "Qm" + body;
    var v1 := "bafy" + body;
    assert v0[0] == 'Q' && v1[0] == 'b';
    if |body| == 44 && forall i :: 0 <= i < |body| ==> IsBase58(body[i]) {
      forall i | 2 <= i < 46 ensures IsBase58(v0[i]) {
        assert v0[i] == body[i - 2];
      }
      assert v0[..2] == "Qm";
    }
    if IsValidCID(v0) {
      assert |body| == 44;
      forall i | 0 <= i < |body| ensures IsBase58(body[i]) {
        assert v0[i + 2] == body[i];
      }
    }
    if |body| == 55 && forall i :: 0 <= i < |body| ==> IsBase32Lower(body[i]) {
      forall i | 4 <= i < 59 ensures IsBase32Lower(v1[i]) {
        assert v1[i] == body[i - 4];
      }
      assert v1[..4] == "bafy";
    }
    if IsValidCID(v1) {
      assert |body| == 55;
      forall i | 0 <= i < |body| ensures IsBase32Lower(body[i]) {
        assert v1[i + 4] == body[i];
      }
    }
  }

  /** No simulated CID of the patient services is a valid CID: its last
      character is the padding '0'. */
  lemma SimulatedCidIsNotValid(dataJson: string)
    ensures !IsValidCID(PatientIndex.SimulateIPFSUpload(dataJson))
  {
    var cid := PatientIndex.SimulateIPFSUpload(dataJson);
    PatientIndex.SimulatedCidShape(dataJson);
    assert !IsBase58(cid[45]);
  }

  /** The clock and Math.random as the mock reads them: `Date.now()`,
      `new Date().toISOString()` and `Math.random().toString(36)`. */
  datatype Clock = Clock(nowMs: nat, isoTime: string, random36: string)

  /** `` `Qm${Date.now().toString(36)}${random.substring(2, 15)}`.substring(0, 46) ``. */
  function MockCid(clock: Clock): string
  {
    Prefix("Qm" + ToRadix(clock.nowMs, 36) + Substring(clock.random36, 2, 15), 46)
  }

  /** A mock CID starts with "Qm" and has at most 46 characters. */
  lemma MockCidShape(clock: Clock)
    ensures StartsWith(MockCid(clock), "Qm")
    ensures 3 <= |MockCid(clock)| <= 46
  {
    var full := "Qm" + ToRadix(clock.nowMs, 36) + Substring(clock.random36, 2, 15);
    assert full[..2] == "Qm";
    assert MockCid(clock) == full[..|MockCid(clock)|];
  }

  /** `mockUploadToIPFS(data)`: the CID alone, nothing stored. */
  function MockUploadToIPFS(clock: Clock): (cid: string)
    ensures StartsWith(cid, "Qm") && 3 <= |cid| <= 46
  {
    MockCidShape(clock);
    MockCid(clock)
  }

  const MockPrefix: string := "ipfs_mock_"

  function MockKey(cid: string): string
  {
    MockPrefix + cid
  }

  /** `{...data, uploadTime, version: '1.0', dataType: 'encrypted-glucose-data', isSimulated: true}`:
      the spread keeps `data`'s properties and the literal ones override. */
  function MockRecord(data: map<string, Json>, isoTime: string): map<string, Json>
  {
    data + map["uploadTime" := JStr(isoTime), "version" := JStr("1.0"),
               "dataType" := JStr("encrypted-glucose-data"), "isSimulated" := JBool(true)]
  }

  /** The record mockRetrieveData answers with when nothing is stored. */
  function DefaultMockRecord(clock: Clock): Json
  {
    JObj(map["patientId" := JStr("mock-patient-001"), "encryptedData" := JStr("mock-encrypted-data"),
             "timestamp" := JNum(clock.nowMs), "dataType" := JStr("blood-sugar"),
             "uploadTime" := JStr(clock.isoTime), "version" := JStr("1.0"), "isSimulated" := JBool(true)])
  }

  /** Buffer.concat of the chunks `cat` produced. */
  function Concat(chunks: seq<seq<Codec.byte>>): seq<Codec.byte>
  {
    if chunks == [] then [] else Concat(chunks[..|chunks| - 1]) + chunks[|chunks| - 1]
  }

  /** Whether `await this.client.id()` answers: the dynamic import (or the
      client constructor) throws, the node does not answer, or it does. */
  datatype NodeProbe = ImportFails | NodeSilent | NodeAnswers

  /** `client.add(...)`: resolves with a CID, or throws. */
  datatype AddOutcome = Added(cid: string) | AddFailed

  /** `client.cat(cid)`: a stream of chunks, or a thrown error. */
  datatype CatOutcome = Chunks(chunks: seq<seq<Codec.byte>>) | CatFailed

  class Client {
    /** `typeof window !== 'undefined'`. */
    const browser: bool
    const store: LocalStorage
    /** `!!this.client`. */
    var hasClient: bool
    var initialized: bool
    var isSimulationMode: bool

    constructor(browser: bool, store: LocalStorage)
      ensures this.browser == browser && this.store == store
      ensures !hasClient && !initialized && isSimulationMode
    {
      this.browser := browser;
      this.store := store;
      hasClient := false;
      initialized := false;
      isSimulationMode := true;
    }

    /** `initialize()`: every path ends initialized; only a browser whose
        node answers leaves simulation mode. */
    method Initialize(probe: NodeProbe) returns (ok: bool)
      modifies this
      ensures initialized
      ensures !isSimulationMode <==> browser && probe == NodeAnswers
      ensures ok == !isSimulationMode
      ensures hasClient == (old(hasClient) || (browser && probe != ImportFails))
    {
      if browser {
        if probe == ImportFails {
          isSimulationMode := true;
          initialized := true;
          return false;
        }
        hasClient := true;
        if probe == NodeSilent {
          isSimulationMode := true;
          initialized := true;
          return false;
        }
        initialized := true;
        isSimulationMode := false;
        return true;
      } else {
        isSimulationMode := true;
        initialized := true;
        return false;
      }
    }

    /** `mockUploadData(data)`. */
    method MockUploadData(data: map<string, Json>, clock: Clock) returns (cid: string)
      modifies store
      ensures cid == MockCid(clock)
      ensures store.items == if browser then old(store.items)[MockKey(cid) := Serialized(JObj(MockRecord(data, clock.isoTime)))]
                             else old(store.items)
    {
      cid := MockCid(clock);
      if browser {
        store.SetItem(MockKey(cid), JObj(MockRecord(data, clock.isoTime)));
      }
    }

    /** `mockRetrieveData(cid)`: the stored object, else the default
        record. None stands for stored text that does not parse: the
        parse error is thrown inside the timer and the promise never
        settles. */
    function MockRetrieveData(cid: string, clock: Clock): Option<Json>
      reads this, store
    {
      var stored := store.GetItem(MockKey(cid));
      if browser && stored.Some? && !(stored.value.Unparseable? && stored.value.text == "") then
        match stored.value
        case Serialized(v) => Some(v)
        case Unparseable(_) => None
      else Some(DefaultMockRecord(clock))
    }

    /** `uploadData(patientData)`: initializes on first use, then uses
        the node unless in simulation mode or the add fails. */
    method UploadData(data: map<string, Json>, probe: NodeProbe, add: AddOutcome, clock: Clock) returns (cid: string)
      modifies this, store
      ensures initialized
      ensures old(initialized) ==> isSimulationMode == old(isSimulationMode)
      ensures !old(initialized) ==> (!isSimulationMode <==> browser && probe == NodeAnswers)
      ensures hasClient == (old(hasClient) || (!old(initialized) && browser && probe != ImportFails))
      ensures isSimulationMode || add.AddFailed? ==> cid == MockCid(clock)
      ensures isSimulationMode || add.AddFailed? ==>
                store.items == if browser then old(store.items)[MockKey(cid) := Serialized(JObj(MockRecord(data, clock.isoTime)))]
                               else old(store.items)
      ensures !isSimulationMode && add.Added? ==> cid == add.cid && store.items == old(store.items)
    {
      if !initialized {
        var _ := Initialize(probe);
      }
      if isSimulationMode {
        cid := MockUploadData(data, clock);
        return;
      }
      match add
      case Added(c) => cid := c;
      case AddFailed => cid := MockUploadData(data, clock);
    }

    /** `retrieveData(cid)`: collects the chunks of `cat`, then
        `JSON.parse(Buffer.concat(chunks).toString())`, given here as
        `parse`; any failure falls back to the mock. */
    method RetrieveData(cid: string, probe: NodeProbe, cat: CatOutcome,
                        parse: seq<Codec.byte> -> Option<Json>, clock: Clock) returns (r: Option<Json>)
      modifies this
      ensures initialized
      ensures old(initialized) ==> isSimulationMode == old(isSimulationMode)
      ensures !old(initialized) ==> (!isSimulationMode <==> browser && probe == NodeAnswers)
      ensures hasClient == (old(hasClient) || (!old(initialized) && browser && probe != ImportFails))
      ensures isSimulationMode || cat.CatFailed? ==> r == MockRetrieveData(cid, clock)
      ensures !isSimulationMode && cat.Chunks? ==>
                r == if parse(Concat(cat.chunks)).Some? then parse(Concat(cat.chunks)) else MockRetrieveData(cid, clock)
    {
      if !initialized {
        var _ := Initialize(probe);
      }
      if isSimulationMode || cat.CatFailed? {
        return MockRetrieveData(cid, clock);
      }
      var stream := cat.chunks;
      var chunks: seq<seq<Codec.byte>> := [];
      var i := 0;
      while i < |stream|
        invariant 0 <= i <= |stream|
        invariant chunks == stream[..i]
      {
        chunks := chunks + [stream[i]];
        i := i + 1;
      }
      assert chunks == stream;
      var parsed := parse(Concat(chunks));
      if parsed.Some? {
        r := parsed;
      } else {
        r := MockRetrieveData(cid, clock);
      }
    }

    /** `pinData(cid)`: nothing to pin in simulation mode or before
        initialization; otherwise whether `pin.add` resolved. */
    function PinData(pinSucceeds: bool): bool
      reads this
    {
      if !initialized || isSimulationMode then true else pinSucceeds
    }

    function IsInitialized(): bool
      reads this
    {
      initialized
    }

    /** `getMode()`. */
    function GetMode(): string
      reads this
    {
      if isSimulationMode then "simulation" else "real"
    }
  }

  /** What mockUploadData stored under a key, mockRetrieveData returns. */
  lemma MockRetrieveReturnsStored(c: Client, cid: string, v: Json, clock: Clock)
    requires c.browser
    requires MockKey(cid) in c.store.items && c.store.items[MockKey(cid)] == Serialized(v)
    ensures c.MockRetrieveData(cid, clock) == Some(v)
  {
  }

  /** Without a stored value (or outside a browser) the answer is the
      fixed default record. */
  lemma MockRetrieveDefault(c: Client, cid: string, clock: Clock)
    requires !c.browser || MockKey(cid) !in c.store.items
    ensures c.MockRetrieveData(cid, clock) == Some(DefaultMockRecord(clock))
  {
  }

  /** A mock upload followed by a mock retrieve of the same CID gives the
      uploaded data with the four mock properties. */
  method MockRoundTrip(c: Client, data: map<string, Json>, upload: Clock, later: Clock) returns (r: Option<Json>)
    requires c.browser
    modifies c.store
    ensures r == Some(JObj(MockRecord(data, upload.isoTime)))
    ensures r.value.fields["isSimulated"] == JBool(true) && r.value.fields["version"] == JStr("1.0")
  {
    var cid := c.MockUploadData(data, upload);
    r := c.MockRetrieveData(cid, later);
  }

  /** getMode is 'simulation' exactly in simulation mode, and pinData
      succeeds without a node in that mode or before initialization. */
  lemma ModeAndPin(c: Client, pinSucceeds: bool)
    ensures c.GetMode() == "simulation" <==> c.isSimulationMode
    ensures !c.initialized || c.isSimulationMode ==> c.PinData(pinSucceeds)
  {
  }

  /** The concatenation holds the bytes of every chunk in order. */
  lemma {:induction false} ConcatLength(chunks: seq<seq<Codec.byte>>)
    ensures |Concat(chunks)| == SumLengths(chunks)
  {
    if chunks != [] {
      ConcatLength(chunks[..|chunks| - 1]);
    }
  }

  function SumLengths(chunks: seq<seq<Codec.byte>>): nat
  {
    if chunks == [] then 0 else SumLengths(chunks[..|chunks| - 1]) + |chunks[|chunks| - 1]|
  }
}
