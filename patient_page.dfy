/** The patient page's glucose entry (frontend/pages/patient.js): the form
    check, the level badge, and the order of the steps of a submission.
    The wallet, the toast, the IPFS service and the contract are outside
    the page; what the page asks of them is recorded as a log of effects,
    and what they answer comes in as parameters. `parseFloat` is a
    parameter too (`None` for NaN). */
module PatientPage {

  import opened Wrappers
  import Strs
  import Analytics

  /** `glucoseData`. */
  datatype GlucoseForm = GlucoseForm(bloodGlucose: string, timestamp: string, notes: string)

  const GlucoseRangeMessage: string := "请输入有效的血糖值 (20-600 mg/dL)"
  const TimestampMessage: string := "请选择测量时间"

  /** `parseFloat(s)` is truthy and within 20..600: NaN and 0 are falsy. */
  predicate GlucoseInRange(s: string, parseFloat: string -> Option<real>)
  {
    parseFloat(s).Some? && parseFloat(s).value != 0.0 &&
    !(parseFloat(s).value < 20.0 || parseFloat(s).value > 600.0)
  }

  /** `validateGlucoseForm`: the message it toasts when it returns false,
      `None` when it returns true. */
  function GlucoseFormError(form: GlucoseForm, parseFloat: string -> Option<real>): (e: Option<string>)
    ensures e.None? <==> GlucoseInRange(form.bloodGlucose, parseFloat) && form.timestamp != ""
  {
    if !GlucoseInRange(form.bloodGlucose, parseFloat) then Some(GlucoseRangeMessage)
    else if form.timestamp == "" then Some(TimestampMessage)
    else None
  }

  /** The value is rejected when it does not parse, is zero, is below 20
      or above 600; a value in range with an empty time is rejected for
      the time. */
  lemma GlucoseFormRules(form: GlucoseForm, parseFloat: string -> Option<real>)
    ensures parseFloat(form.bloodGlucose).None? ==> GlucoseFormError(form, parseFloat) == Some(GlucoseRangeMessage)
    ensures parseFloat(form.bloodGlucose).Some? &&
            (parseFloat(form.bloodGlucose).value < 20.0 || parseFloat(form.bloodGlucose).value > 600.0) ==>
            GlucoseFormError(form, parseFloat) == Some(GlucoseRangeMessage)
    ensures parseFloat(form.bloodGlucose).Some? && 20.0 <= parseFloat(form.bloodGlucose).value <= 600.0 ==>
            GlucoseFormError(form, parseFloat) == if form.timestamp == "" then Some(TimestampMessage) else None
  {
  }

  /** The badge of `getGlucoseLevel`. */
  datatype GlucoseLevel = GlucoseLevel(level: string, color: string, bg: string)

  const LowLevel: GlucoseLevel := GlucoseLevel("低血糖", "text-blue-600", "bg-blue-100")
  const NormalLevel: GlucoseLevel := GlucoseLevel("正常", "text-green-600", "bg-green-100")
  const HighLevel: GlucoseLevel := GlucoseLevel("高血糖", "text-red-600", "bg-red-100")

  /** `getGlucoseLevel(value)`: both comparisons are false for NaN, which
      therefore gets the high badge. */
  function GetGlucoseLevel(value: string, parseFloat: string -> Option<real>): (l: GlucoseLevel)
    ensures parseFloat(value).None? ==> l == HighLevel
    ensures parseFloat(value).Some? ==>
            (l == LowLevel <==> parseFloat(value).value < 70.0) &&
            (l == NormalLevel <==> 70.0 <= parseFloat(value).value <= 140.0) &&
            (l == HighLevel <==> parseFloat(value).value > 140.0)
  {
    match parseFloat(value)
    case None => HighLevel
    case Some(glucose) =>
      if glucose < 70.0 then LowLevel
      else if glucose <= 140.0 then NormalLevel
      else HighLevel
  }

  /** The badge of each analytics band. */
  function BadgeOf(b: Analytics.Band): GlucoseLevel
  {
    match b
    case Low => LowLevel
    case Normal => NormalLevel
    case High => HighLevel
  }

  /** The page's badge and the analytics chart's band use the same edges. */
  lemma LevelMatchesAnalyticsBand(value: string, parseFloat: string -> Option<real>)
    requires parseFloat(value).Some?
    ensures GetGlucoseLevel(value, parseFloat) == BadgeOf(Analytics.BandOf(parseFloat(value).value))
  {
  }

  // ---------------------------------------------------------------------
  // handleGlucoseSubmit
  // ---------------------------------------------------------------------

  /** What the IPFS service answers `submitPatientRecord`. */
  datatype UploadOutcome = Uploaded(cid: string, patientId: string, ipfsUrl: Field) | UploadFailed(error: string)

  /** The record handed to the IPFS service. */
  datatype GlucoseRecord = GlucoseRecord(bloodGlucose: string, timestamp: string, notes: string,
                                         dataType: string, submittedAt: string)

  /** The metadata object whose JSON goes to the contract. */
  datatype ChainMetadata = ChainMetadata(dataType: string, ipfsCid: string, patientId: string, notes: string,
                                         submittedAt: string, ipfsUrl: Field)

  /** What the page asks of the world outside it, in order. */
  datatype Effect =
    | ConnectWallet
    | Toast(message: string, kind: string)
    | UploadRecord(wallet: string, record: GlucoseRecord)
    | SubmitToChain(value: string, timestamp: string, metadata: ChainMetadata)
    | LoadSubmissions

  const SwitchNetworkMessage: string := "请切换到 Sepolia 测试网"
  const SubmittingMessage: string := "正在提交血糖数据..."
  const FailedMessage: string := "提交失败，请重试"
  const SucceededMessage: string := "血糖数据提交成功！数据已安全存储到IPFS和区块链"
  const UploadedPrefix: string := "血糖数据已上传到IPFS: "
  const GlucoseDataType: string := "blood-glucose"

  /** The times the submission reads from the clock: the record's
      `submittedAt`, the metadata's `submittedAt`, and the time the reset
      form starts with (`toISOString().slice(0, 16)`). */
  datatype Clock = Clock(recordTime: string, metadataTime: string, resetTime: string)

  /** The guards before anything is uploaded, in the source's order:
      the effects of the first one that fails. */
  function GuardEffects(form: GlucoseForm, account: Field, sepolia: bool, parseFloat: string -> Option<real>)
    : Option<seq<Effect>>
  {
    if !Truthy(account) then Some([ConnectWallet])
    else if !sepolia then Some([Toast(SwitchNetworkMessage, "error")])
    else if GlucoseFormError(form, parseFloat).Some? then Some([Toast(GlucoseFormError(form, parseFloat).value, "error")])
    else None
  }

  /** The record uploaded first. */
  function RecordOf(form: GlucoseForm, clock: Clock): GlucoseRecord
  {
    GlucoseRecord(form.bloodGlucose, form.timestamp, form.notes, GlucoseDataType, clock.recordTime)
  }

  /** The effects after the guards passed: upload, then (only after a
      successful upload) the chain submission, then (only when the chain
      accepted it) the reload. Any failure ends in the failure toast. */
  function SubmissionEffects(form: GlucoseForm, wallet: string, upload: UploadOutcome, chainOk: bool, clock: Clock)
    : seq<Effect>
  {
    var start := [Toast(SubmittingMessage, "info"), UploadRecord(wallet, RecordOf(form, clock))];
    match upload
    case UploadFailed(_) => start + [Toast(FailedMessage, "error")]
    case Uploaded(cid, patientId, ipfsUrl) =>
      start + [Toast(UploadedPrefix + Strs.Substring(cid, 0, 10) + "...", "success"),
               SubmitToChain(form.bloodGlucose, form.timestamp,
                             ChainMetadata(GlucoseDataType, cid, patientId, form.notes, clock.metadataTime, ipfsUrl))] +
      (if chainOk then [LoadSubmissions, Toast(SucceededMessage, "success")] else [])
  }

  /** Whether the submission reaches the end and the form is reset. */
  predicate Completes(form: GlucoseForm, account: Field, sepolia: bool, parseFloat: string -> Option<real>,
                      upload: UploadOutcome, chainOk: bool)
  {
    GuardEffects(form, account, sepolia, parseFloat).None? && upload.Uploaded? && chainOk
  }

  /** The page state the handler changes. */
  class Page {
    var isSubmitting: bool
    var glucoseData: GlucoseForm
    var effects: seq<Effect>

    constructor(now16: string)
      ensures !isSubmitting && glucoseData == GlucoseForm("", now16, "") && effects == []
    {
      isSubmitting := false;
      glucoseData := GlucoseForm("", now16, "");
      effects := [];
    }

    /** `handleGlucoseSubmit` for one click. */
    method HandleGlucoseSubmit(account: Field, sepolia: bool, parseFloat: string -> Option<real>,
                               upload: UploadOutcome, chainOk: bool, clock: Clock)
      modifies this
      ensures var guard := GuardEffects(old(glucoseData), account, sepolia, parseFloat);
              effects == old(effects) + if guard.Some? then guard.value
                                        else SubmissionEffects(old(glucoseData), account.s, upload, chainOk, clock)
      ensures isSubmitting == if GuardEffects(old(glucoseData), account, sepolia, parseFloat).Some?
                              then old(isSubmitting) else false
      ensures glucoseData == if Completes(old(glucoseData), account, sepolia, parseFloat, upload, chainOk)
                             then GlucoseForm("", clock.resetTime, "") else old(glucoseData)
    {
      if !Truthy(account) {
        effects := effects + [ConnectWallet];
        return;
      }
      if !sepolia {
        effects := effects + [Toast(SwitchNetworkMessage, "error")];
        return;
      }
      var error := GlucoseFormError(glucoseData, parseFloat);
      if error.Some? {
        effects := effects + [Toast(error.value, "error")];
        return;
      }
      isSubmitting := true;
      Submit(account.s, upload, chainOk, clock);
      isSubmitting := false;
    }

    /** The `try` block of `handleGlucoseSubmit`, once the guards passed. */
    method Submit(wallet: string, upload: UploadOutcome, chainOk: bool, clock: Clock)
      modifies this
      ensures effects == old(effects) + SubmissionEffects(old(glucoseData), wallet, upload, chainOk, clock)
      ensures glucoseData == if upload.Uploaded? && chainOk then GlucoseForm("", clock.resetTime, "") else old(glucoseData)
      ensures isSubmitting == old(isSubmitting)
    {
      var form := glucoseData;
      effects := effects + [Toast(SubmittingMessage, "info"), UploadRecord(wallet, RecordOf(form, clock))];
      match upload {
        case UploadFailed(_) =>
          effects := effects + [Toast(FailedMessage, "error")];
        case Uploaded(cid, patientId, ipfsUrl) =>
          effects := effects + [Toast(UploadedPrefix + Strs.Substring(cid, 0, 10) + "...", "success")];
          effects := effects + [SubmitToChain(form.bloodGlucose, form.timestamp,
                                              ChainMetadata(GlucoseDataType, cid, patientId, form.notes,
                                                            clock.metadataTime, ipfsUrl))];
          if chainOk {
            glucoseData := GlucoseForm("", clock.resetTime, "");
            effects := effects + [LoadSubmissions, Toast(SucceededMessage, "success")];
          }
      }
    }
  }

  /** No account, a wrong network or an invalid form stop the handler
      before any upload, and they are checked in that order. */
  lemma GuardOrder(form: GlucoseForm, account: Field, sepolia: bool, parseFloat: string -> Option<real>)
    ensures !Truthy(account) ==> GuardEffects(form, account, sepolia, parseFloat) == Some([ConnectWallet])
    ensures Truthy(account) && !sepolia ==>
            GuardEffects(form, account, sepolia, parseFloat) == Some([Toast(SwitchNetworkMessage, "error")])
    ensures Truthy(account) && sepolia && GlucoseFormError(form, parseFloat).Some? ==>
            GuardEffects(form, account, sepolia, parseFloat) == Some([Toast(GlucoseFormError(form, parseFloat).value, "error")])
    ensures GuardEffects(form, account, sepolia, parseFloat).None? <==>
            Truthy(account) && sepolia && GlucoseFormError(form, parseFloat).None?
  {
  }

  /** A stopped submission never uploads nor talks to the contract. */
  lemma GuardsComeFirst(form: GlucoseForm, account: Field, sepolia: bool, parseFloat: string -> Option<real>)
    requires GuardEffects(form, account, sepolia, parseFloat).Some?
    ensures forall e :: e in GuardEffects(form, account, sepolia, parseFloat).value ==>
              !e.UploadRecord? && !e.SubmitToChain?
  {
  }

  /** The upload comes first; when it fails, the contract is never asked. */
  lemma UploadBeforeChain(form: GlucoseForm, wallet: string, upload: UploadOutcome, chainOk: bool, clock: Clock)
    ensures var effects := SubmissionEffects(form, wallet, upload, chainOk, clock);
            |effects| >= 3 && effects[1] == UploadRecord(wallet, RecordOf(form, clock))
    ensures upload.UploadFailed? ==>
            forall e :: e in SubmissionEffects(form, wallet, upload, chainOk, clock) ==> !e.SubmitToChain?
    ensures upload.Uploaded? ==>
            SubmissionEffects(form, wallet, upload, chainOk, clock)[3].SubmitToChain? &&
            SubmissionEffects(form, wallet, upload, chainOk, clock)[3].metadata.ipfsCid == upload.cid
  {
  }

  /** The submissions are reloaded (and the form reset) only after the
      contract accepted the data. */
  lemma ReloadOnlyAfterChain(form: GlucoseForm, wallet: string, upload: UploadOutcome, chainOk: bool, clock: Clock)
    ensures LoadSubmissions in SubmissionEffects(form, wallet, upload, chainOk, clock) <==> upload.Uploaded? && chainOk
  {
    var effects := SubmissionEffects(form, wallet, upload, chainOk, clock);
    if upload.Uploaded? && chainOk {
      assert effects[4] == LoadSubmissions;
    }
  }
}
