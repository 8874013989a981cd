/** What the two patient-record services (frontend/services/filebaseService.js
    and frontend/services/ipfsService.js) have in common: the patient ID, the
    record text that is encrypted, the simulated CID, and the `patientId ->
    CID` index with its persistence under the storage key 'patientRecords'. */
module PatientIndex {

  import opened Wrappers
  import opened Strs
  import opened Hash
  import opened Storage
  import Codec

  /** The survey object as far as the services look into it: `name` and
      `idNumber` feed the patient ID, and `json` is its JSON text, which is
      embedded in the record as it is. */
  datatype Survey = Survey(name: Field, idNumber: Field, json: string)

  /** `${walletAddress}_${basicInfo.name}_${basicInfo.idNumber}`. */
  function Identifier(wallet: string, name: Field, idNumber: Field): string
  {
    wallet + "_" + Render(name) + "_" + Render(idNumber)
  }

  /** `generatePatientId(walletAddress, {name, idNumber})`. */
  function GeneratePatientId(wallet: string, name: Field, idNumber: Field): string
  {
    HashHex(Identifier(wallet, name, idNumber))
  }

  /** A patient ID is one to eight lower-case hexadecimal digits, a
      function of the triple alone. */
  lemma PatientIdShape(wallet: string, name: Field, idNumber: Field)
    ensures 1 <= |GeneratePatientId(wallet, name, idNumber)| <= 8
    ensures forall i :: 0 <= i < |GeneratePatientId(wallet, name, idNumber)| ==>
              IsLowerHexDigit(GeneratePatientId(wallet, name, idNumber)[i])
    ensures GeneratePatientId(wallet, name, idNumber) == HashHex(wallet + "_" + Render(name) + "_" + Render(idNumber))
  {
    HashHexShape(Identifier(wallet, name, idNumber));
  }

  /** A missing name or ID number renders as the word "undefined", so it
      yields the same patient ID as that literal text. */
  lemma AbsentFieldIsUndefinedText(wallet: string, name: Field, idNumber: Field)
    ensures GeneratePatientId(wallet, Absent, idNumber) == GeneratePatientId(wallet, Text("undefined"), idNumber)
    ensures GeneratePatientId(wallet, name, Absent) == GeneratePatientId(wallet, name, Text("undefined"))
  {
  }

  // ---------------------------------------------------------------------
  // Record and simulated upload
  // ---------------------------------------------------------------------

  /** `JSON.stringify(recordData)` for
      `{patientId, walletAddress, surveyData, timestamp, version: 1}`. */
  function RecordJson(patientId: string, wallet: string, surveyJson: string, timestamp: string): string
  {
    "{\"patientId\":" + JsonQuote(patientId) + ",\"walletAddress\":" + JsonQuote(wallet) +
    ",\"surveyData\":" + surveyJson + ",\"timestamp\":" + JsonQuote(timestamp) + ",\"version\":1}"
  }

  const VersionSuffix: string := ",\"version\":1}"

  /** Every record is written with version 1 as its last member. */
  lemma RecordVersionIsOne(patientId: string, wallet: string, surveyJson: string, timestamp: string)
    ensures |RecordJson(patientId, wallet, surveyJson, timestamp)| > |VersionSuffix|
    ensures var r := RecordJson(patientId, wallet, surveyJson, timestamp);
            r[|r| - |VersionSuffix|..] == VersionSuffix
  {
    var head := "{\"patientId\":" + JsonQuote(patientId) + ",\"walletAddress\":" + JsonQuote(wallet) +
      ",\"surveyData\":" + surveyJson + ",\"timestamp\":" + JsonQuote(timestamp);
    assert RecordJson(patientId, wallet, surveyJson, timestamp) == head + VersionSuffix;
  }

  /** `simulateIPFSUpload(data)` on the JSON text of `data`:
      "Qm" + the hash, padded with '0' to 44 characters. */
  function SimulateIPFSUpload(dataJson: string): (cid: string)
  {
    "Qm" + Prefix(PadEnd(HashHex(dataJson), 44, '0'), 44)
  }

  /** A simulated CID is 46 characters: "Qm", the hash digits, then at
      least 36 '0' characters filling it up. */
  lemma SimulatedCidShape(dataJson: string)
    ensures |SimulateIPFSUpload(dataJson)| == 46
    ensures 1 <= |HashHex(dataJson)| <= 8
    ensures StartsWith(SimulateIPFSUpload(dataJson), "Qm")
    ensures SimulateIPFSUpload(dataJson)[2..2 + |HashHex(dataJson)|] == HashHex(dataJson)
    ensures forall i :: 2 + |HashHex(dataJson)| <= i < 46 ==> SimulateIPFSUpload(dataJson)[i] == '0'
    ensures SimulateIPFSUpload(dataJson)[45] == '0'
  {
    HashHexShape(dataJson);
    var h := HashHex(dataJson);
    var p := PadEnd(h, 44, '0');
    assert Prefix(p, 44) == p;
    var cid := SimulateIPFSUpload(dataJson);
    assert cid == "Qm" + p;
    assert cid[2..2 + |h|] == p[..|h|];
    forall i | 2 + |h| <= i < 46 ensures cid[i] == '0' {
      assert cid[i] == p[i - 2];
    }
  }

  // ---------------------------------------------------------------------
  // The index and its persistence
  // ---------------------------------------------------------------------

  /** The storage key both services read and write. */
  const IndexKey: string := "patientRecords"

  /** `JSON.stringify(Object.fromEntries(patientRecords))`: keys whose CID
      is `undefined` are dropped by JSON.stringify. */
  function IndexJson(m: map<string, Field>): Json
  {
    JObj(map k | k in m && m[k].Text? :: JStr(m[k].s))
  }

  /** `loadPatientRecords`: the index `new Map(Object.entries(JSON.parse(saved)))`
      builds from what is stored, or None where the source keeps the index it
      had: nothing stored, text that does not parse, or `null` (for which
      Object.entries throws). An object gives its members, an array its
      elements keyed "0", "1", ..., a string its characters keyed the same
      way, and a number or boolean nothing. Of the values only strings are
      kept as CIDs. */
  function LoadIndex(saved: Option<Stored>): (m: Option<map<string, Field>>)
    ensures m.Some? ==> Absent !in m.value.Values
  {
    match saved
    case Some(Serialized(JObj(o))) => Some(map k | k in o && o[k].JStr? :: Text(o[k].s))
    case Some(Serialized(JArr(items))) => Some(ArrayEntries(items, 0))
    case Some(Serialized(JStr(text))) => Some(ArrayEntries(Characters(text), 0))
    case Some(Serialized(JNull)) => None
    case Some(Serialized(_)) => Some(map[])
    case _ => None
  }

  /** `Object.entries` of an array from index `i` on, keeping the string
      elements under their decimal index. */
  function ArrayEntries(items: seq<Json>, i: nat): (m: map<string, Field>)
    ensures Absent !in m.Values
    decreases |items| - i
  {
    if i >= |items| then map[]
    else if items[i].JStr? then ArrayEntries(items, i + 1)[Decimal(i) := Text(items[i].s)]
    else ArrayEntries(items, i + 1)
  }

  /** The elements `Object.entries` sees in a string: its characters, each
      a string of length one. */
  function Characters(text: string): (items: seq<Json>)
    ensures |items| == |text| && forall j :: 0 <= j < |text| ==> items[j] == JStr([text[j]])
  {
    seq(|text|, j requires 0 <= j < |text| => JStr([text[j]]))
  }

  /** Distinct indices have distinct decimal keys. */
  lemma DecimalInjective(a: nat, b: nat)
    requires Decimal(a) == Decimal(b)
    ensures a == b
  {
    ToRadixValue(a, 10);
    ToRadixValue(b, 10);
  }

  /** The entries from index `i` on are exactly the string elements at
      `j >= i`, each under the key `Decimal(j)`. */
  lemma {:induction false} ArrayEntriesExact(items: seq<Json>, i: nat)
    ensures forall j :: i <= j < |items| ==> (Decimal(j) in ArrayEntries(items, i) <==> items[j].JStr?)
    ensures forall j :: i <= j < |items| && items[j].JStr? ==> ArrayEntries(items, i)[Decimal(j)] == Text(items[j].s)
    ensures forall k :: k in ArrayEntries(items, i) ==> exists j :: i <= j < |items| && k == Decimal(j)
    decreases |items| - i
  {
    if i < |items| {
      ArrayEntriesExact(items, i + 1);
      forall j | i < j < |items|
        ensures Decimal(j) != Decimal(i)
      {
        if Decimal(j) == Decimal(i) {
          DecimalInjective(j, i);
        }
      }
    }
  }

  /** A stored array loads as its string elements keyed by index. */
  lemma LoadIndexArray(items: seq<Json>)
    ensures LoadIndex(Some(Serialized(JArr(items)))).Some?
    ensures var m := LoadIndex(Some(Serialized(JArr(items)))).value;
            (forall j :: 0 <= j < |items| ==> (Decimal(j) in m <==> items[j].JStr?)) &&
            (forall j :: 0 <= j < |items| && items[j].JStr? ==> m[Decimal(j)] == Text(items[j].s)) &&
            (forall k :: k in m ==> exists j :: 0 <= j < |items| && k == Decimal(j))
  {
    ArrayEntriesExact(items, 0);
  }

  /** A stored string loads as one entry per character, keyed by its
      index. */
  lemma LoadIndexString(text: string)
    ensures LoadIndex(Some(Serialized(JStr(text)))).Some?
    ensures var m := LoadIndex(Some(Serialized(JStr(text)))).value;
            (forall j :: 0 <= j < |text| ==> Decimal(j) in m && m[Decimal(j)] == Text([text[j]])) &&
            (forall k :: k in m ==> exists j :: 0 <= j < |text| && k == Decimal(j))
  {
    ArrayEntriesExact(Characters(text), 0);
  }

  /** The entries of an index that JSON can carry. */
  function TextEntries(m: map<string, Field>): map<string, Field>
  {
    map k | k in m && m[k].Text? :: m[k]
  }

  /** Save then load restores every entry with a CID, and nothing else. */
  lemma SaveLoadRoundTrip(m: map<string, Field>)
    ensures LoadIndex(Some(Serialized(IndexJson(m)))) == Some(TextEntries(m))
    ensures Absent !in m.Values ==> LoadIndex(Some(Serialized(IndexJson(m)))) == Some(m)
  {
    var l := LoadIndex(Some(Serialized(IndexJson(m)))).value;
    assert l.Keys == TextEntries(m).Keys;
    assert l == TextEntries(m);
    if Absent !in m.Values {
      assert forall k :: k in m ==> m[k] in m.Values;
      assert TextEntries(m).Keys == m.Keys;
      assert TextEntries(m) == m;
    }
  }

  /** Overwriting means the entry for `id` now holds `cid`, and every
      other entry is as it was. */
  lemma OverwriteOnResubmit(m: map<string, Field>, id: string, cid: Field)
    ensures id in m[id := cid] && m[id := cid][id] == cid
    ensures forall k :: k != id ==> (k in m[id := cid] <==> k in m)
    ensures forall k :: k != id && k in m ==> m[id := cid][k] == m[k]
    ensures |m[id := cid]| == if id in m then |m| else |m| + 1
  {
    if id !in m {
      assert m[id := cid].Keys == m.Keys + {id};
    } else {
      assert m[id := cid].Keys == m.Keys;
    }
  }

  // ---------------------------------------------------------------------
  // Results shared by both services
  // ---------------------------------------------------------------------

  /** What a gateway `fetch(url)` followed by `response.json()` gives: a
      thrown error with its message, a response that is not ok, or a body
      whose `encryptedData` property is read. */
  datatype FetchOutcome = Thrown(message: string) | NotOk(statusText: string) | Body(encryptedData: Field)

  const NotFoundMessage: string := "未找到患者记录"
  const FetchFailedPrefix: string := "获取IPFS数据失败: "

  /** The successful result of `submitPatientRecord`; `ipfsUrl` is only
      set by the Filebase service. */
  datatype SubmitResult = SubmitResult(patientId: string, cid: Field, oldCid: Field, message: string, ipfsUrl: Option<string>)

  /** The result of `getPatientRecord`; `data` is the decrypted JSON text. */
  datatype GetResult = Found(data: string, cid: string, ipfsUrl: Option<string>) | Failed(error: string)

  /** The JSON text of the record that `submitPatientRecord` encrypts. */
  function EncryptedRecord(patientId: string, wallet: string, survey: Survey, timestamp: string): string
  {
    Codec.EncryptData(RecordJson(patientId, wallet, survey.json, timestamp))
  }

  /** The prior entry for `id`, `undefined` when there is none. */
  function Lookup(m: map<string, Field>, id: string): (r: Field)
    ensures r.Text? ==> id in m && m[id] == r
    ensures id in m ==> r == m[id]
  {
    if id in m then m[id] else Absent
  }

  /** `decryptData(ipfsData.encryptedData)` as the end of getPatientRecord;
      `parses` stands for `JSON.parse` not throwing. */
  function DecryptFetched(encryptedData: Field, cid: string, ipfsUrl: Option<string>, parses: string -> bool): GetResult
  {
    match Codec.DecryptData(Render(encryptedData), parses)
    case Ok(json) => Found(json, cid, ipfsUrl)
    case Err(_) => Failed(Codec.DecryptFailedMessage)
  }

  /** What was encrypted at submission comes back from the gateway as the
      record text, given that the record's JSON text parses. */
  lemma DecryptFetchedRecord(patientId: string, wallet: string, survey: Survey, timestamp: string, cid: string,
                             url: Option<string>, parses: string -> bool)
    requires parses(RecordJson(patientId, wallet, survey.json, timestamp))
    ensures DecryptFetched(Text(EncryptedRecord(patientId, wallet, survey, timestamp)), cid, url, parses)
         == Found(RecordJson(patientId, wallet, survey.json, timestamp), cid, url)
  {
    Codec.DecryptEncrypt(RecordJson(patientId, wallet, survey.json, timestamp), parses);
  }

  /** One item of `getAllPatientRecords()`; only the Filebase service adds
      the gateway URL. */
  datatype Entry = Entry(patientId: string, cid: Field, ipfsUrl: Option<string>)

  function EntryOf(m: map<string, Field>, k: string, gateway: Option<string>): Entry
    requires k in m
  {
    Entry(k, m[k], if gateway.Some? then Some(gateway.value + Render(m[k])) else None)
  }

  /** `getAllPatientRecords()`, without the order of the entries. */
  function Listing(m: map<string, Field>, gateway: Option<string>): set<Entry>
  {
    set k | k in m :: EntryOf(m, k, gateway)
  }

  /** Exactly one entry per index key, carrying that key's CID. */
  lemma {:induction false} ListingExact(m: map<string, Field>, gateway: Option<string>)
    ensures forall e :: e in Listing(m, gateway) <==> e.patientId in m && e == EntryOf(m, e.patientId, gateway)
    ensures |Listing(m, gateway)| == |m|
    decreases |m|
  {
    if |m| > 0 {
      var k :| k in m;
      var rest := m - {k};
      ListingExact(rest, gateway);
      assert Listing(m, gateway) == Listing(rest, gateway) + {EntryOf(m, k, gateway)} by {
        forall e | e in Listing(m, gateway)
          ensures e in Listing(rest, gateway) + {EntryOf(m, k, gateway)}
        {
          var j :| j in m && e == EntryOf(m, j, gateway);
          if j != k { assert e == EntryOf(rest, j, gateway); }
        }
        forall e | e in Listing(rest, gateway) ensures e in Listing(m, gateway) {
          var j :| j in rest && e == EntryOf(rest, j, gateway);
          assert e == EntryOf(m, j, gateway);
        }
      }
      assert EntryOf(m, k, gateway) !in Listing(rest, gateway);
      assert |rest| == |m| - 1;
    } else {
      assert m == map[];
    }
  }
}
