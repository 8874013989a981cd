/** The researcher page (frontend/pages/researcher.js): authorisation and
    fee loading, the analysis-type and factor selection, the guard chain
    before an analysis is requested, and the analysis history kept
    newest-first in `localStorage`. Messages are the i18n keys handed to
    `t(...)`; the contract's answers and the clock come in as parameters. */
module ResearcherPage {

  import opened Wrappers
  import opened Lists
  import opened Storage
  import Strs

  const HistoryKey: string := "analysisHistory"
  const DefaultFee: string := "0.001"

  /** The entries of `analysisTypes` the page acts on. */
  datatype AnalysisType = AnalysisType(id: int, name: string)

  // ---------------------------------------------------------------------
  // Factor selection
  // ---------------------------------------------------------------------

  /** `handleFactorToggle(factor)`. */
  function ToggleFactor(factors: seq<string>, factor: string): (r: seq<string>)
    ensures factor in r <==> factor !in factors
    ensures forall f :: f != factor ==> (f in r <==> f in factors)
  {
    forall f ensures f in Without(factors, factor) <==> f in factors && f != factor {
      WithoutMembers(factors, factor, f);
    }
    if factor in factors then Without(factors, factor) else factors + [factor]
  }

  /** No factor occurs twice. */
  predicate Distinct(s: seq<string>)
  {
    forall i, j :: 0 <= i < j < |s| ==> s[i] != s[j]
  }

  /** Filtering keeps a list duplicate-free. */
  lemma {:induction false} WithoutDistinct(s: seq<string>, v: string)
    requires Distinct(s)
    ensures Distinct(Without(s, v))
  {
    if s != [] {
      assert Distinct(s[1..]);
      WithoutDistinct(s[1..], v);
      WithoutMembers(s[1..], v, s[0]);
      assert s[0] !in s[1..];
    }
  }

  /** Toggling keeps the selection duplicate-free. */
  lemma ToggleKeepsDistinct(factors: seq<string>, factor: string)
    requires Distinct(factors)
    ensures Distinct(ToggleFactor(factors, factor))
  {
    if factor in factors {
      WithoutDistinct(factors, factor);
    }
  }

  /** Toggling an unselected factor twice restores the selection; toggling
      a selected one twice moves it to the end. */
  lemma ToggleTwice(factors: seq<string>, factor: string)
    requires Distinct(factors)
    ensures factor !in factors ==> ToggleFactor(ToggleFactor(factors, factor), factor) == factors
    ensures factor in factors ==>
            ToggleFactor(ToggleFactor(factors, factor), factor) == Without(factors, factor) + [factor]
  {
    if factor !in factors {
      WithoutAppended(factors, factor);
    }
  }

  // ---------------------------------------------------------------------
  // The guard chain of handleRunAnalysis
  // ---------------------------------------------------------------------

  /** Why `handleRunAnalysis` stops before requesting an analysis. */
  datatype Block = NoWallet | WrongNetwork | NoPermission | NoType | NoFactors | NoPatientData

  /** The toast of each block (`connectWallet()` for a missing wallet). */
  function BlockMessage(b: Block): string
  {
    match b
    case NoWallet => ""
    case WrongNetwork => "researcher.messages.switchToSepolia"
    case NoPermission => "researcher.messages.noPermission"
    case NoType => "researcher.messages.selectAnalysisType"
    case NoFactors => "researcher.messages.selectFactors"
    case NoPatientData => "researcher.messages.noPatientData"
  }

  /** The checks in the source's order; `submissions` is
      `parseInt(stats.totalSubmissions)` (`None` for NaN, which is not 0). */
  function FirstBlock(account: Field, sepolia: bool, authorized: bool, selected: Option<AnalysisType>,
                      factors: seq<string>, submissions: Option<int>): Option<Block>
  {
    if !Truthy(account) then Some(NoWallet)
    else if !sepolia then Some(WrongNetwork)
    else if !authorized then Some(NoPermission)
    else if selected.None? then Some(NoType)
    else if |factors| == 0 then Some(NoFactors)
    else if submissions == Some(0) then Some(NoPatientData)
    else None
  }

  /** The block reported is the first failing check: every check before it
      passed. */
  lemma GuardChainOrder(account: Field, sepolia: bool, authorized: bool, selected: Option<AnalysisType>,
                        factors: seq<string>, submissions: Option<int>)
    ensures var b := FirstBlock(account, sepolia, authorized, selected, factors, submissions);
            (b == Some(NoWallet) <==> !Truthy(account)) &&
            (b == Some(WrongNetwork) <==> Truthy(account) && !sepolia) &&
            (b == Some(NoPermission) <==> Truthy(account) && sepolia && !authorized) &&
            (b == Some(NoType) <==> Truthy(account) && sepolia && authorized && selected.None?) &&
            (b == Some(NoFactors) <==> Truthy(account) && sepolia && authorized && selected.Some? && factors == []) &&
            (b == Some(NoPatientData) <==>
               Truthy(account) && sepolia && authorized && selected.Some? && factors != [] && submissions == Some(0))
  {
  }

  /** An analysis is requested exactly when every check passes. */
  lemma RequestedIffAllPass(account: Field, sepolia: bool, authorized: bool, selected: Option<AnalysisType>,
                            factors: seq<string>, submissions: Option<int>)
    ensures FirstBlock(account, sepolia, authorized, selected, factors, submissions).None? <==>
            Truthy(account) && sepolia && authorized && selected.Some? && |factors| > 0 && submissions != Some(0)
  {
  }

  // ---------------------------------------------------------------------
  // The request and the running flag
  // ---------------------------------------------------------------------

  /** What `requestAnalysis` does: a receipt, `false` (it reports its own
      errors that way), or a thrown error. */
  datatype RequestOutcome = Receipt | ReturnedFalse | Threw

  /** The completion timer is set only for a receipt. */
  predicate CompletionScheduled(r: RequestOutcome)
  {
    r == Receipt
  }

  /** `isRunningAnalysis` after the request as the handler is written: only
      the `catch` clears it. */
  function RunningAfterRequestAsWritten(r: RequestOutcome): bool
  {
    r != Threw
  }

  /** When the request returns `false`, the flag stays set and no timer
      will ever clear it: the run button stays disabled. */
  lemma StuckAfterRefusedRequest()
    ensures RunningAfterRequestAsWritten(ReturnedFalse) && !CompletionScheduled(ReturnedFalse)
  {
  }

  /** The flag as evidently intended: it stays set only while a
      completion is pending. */
  function RunningAfterRequest(r: RequestOutcome): (running: bool)
    ensures running <==> CompletionScheduled(r)
  {
    r == Receipt
  }

  /** The two agree except on a refused request. */
  lemma RunningFlagDiffersOnlyWhenRefused(r: RequestOutcome)
    ensures RunningAfterRequest(r) != RunningAfterRequestAsWritten(r) <==> r == ReturnedFalse
  {
  }

  // ---------------------------------------------------------------------
  // History
  // ---------------------------------------------------------------------

  /** The properties of a history entry. */
  const EntryKeys: set<string> :=
    {"id", "type", "typeName", "selectedFactors", "timestamp", "completed", "resultCid", "fee", "results"}

  /** The `newAnalysis` object of the completion timer. `id` and
      `timestamp` come from two separate `Date.now()` calls, `idNow` and
      `stampNow`; the random suffix of `resultCid` and `results` (random)
      are parameters too. */
  function AnalysisEntry(t: AnalysisType, factors: seq<string>, fee: string, idNow: int, stampNow: int,
                         randomSuffix: string, results: Json): (e: Json)
    ensures e.JObj? && e.fields.Keys == EntryKeys
    ensures e.fields["id"] == JNum(idNow) && e.fields["timestamp"] == JNum(stampNow)
    ensures e.fields["type"] == JNum(t.id) && e.fields["typeName"] == JStr(t.name)
    ensures e.fields["completed"] == JBool(true) && e.fields["fee"] == JStr(fee)
    ensures e.fields["resultCid"].JStr? && Strs.Prefix(e.fields["resultCid"].s, 8) == "QmResult"
    ensures e.fields["selectedFactors"].JArr? && |e.fields["selectedFactors"].items| == |factors|
    ensures forall i :: 0 <= i < |factors| ==> e.fields["selectedFactors"].items[i] == JStr(factors[i])
  {
    JObj(map[
      "id" := JNum(idNow),
      "type" := JNum(t.id),
      "typeName" := JStr(t.name),
      "selectedFactors" := JArr(seq(|factors|, i requires 0 <= i < |factors| => JStr(factors[i]))),
      "timestamp" := JNum(stampNow),
      "completed" := JBool(true),
      "resultCid" := JStr("QmResult" + randomSuffix),
      "fee" := JStr(fee),
      "results" := results])
  }

  /** `loadAnalysisHistory` on what `getItem` returned: a saved array is
      restored; a missing key, an empty text or text that does not parse
      gives []. */
  function LoadedHistory(saved: Option<Stored>): (h: seq<Json>)
    ensures saved.None? ==> h == []
    ensures saved.Some? && saved.value.Unparseable? ==> h == []
  {
    match saved
    case Some(Serialized(JArr(items))) => items
    case _ => []
  }

  /** What one page saves the next load restores. */
  lemma HistoryRoundTrip(history: seq<Json>)
    ensures LoadedHistory(Some(Serialized(JArr(history)))) == history
  {
  }

  /** The page state. */
  class Researcher {
    var isAuthorized: bool
    var analysisFee: string
    var analysisHistory: seq<Json>
    var isRunningAnalysis: bool
    var selectedAnalysisType: Option<AnalysisType>
    var selectedFactors: seq<string>
    var showFactorSelection: bool
    const store: LocalStorage

    constructor(store: LocalStorage)
      ensures this.store == store
      ensures !isAuthorized && analysisFee == "0" && analysisHistory == [] && !isRunningAnalysis
      ensures selectedAnalysisType == None && selectedFactors == [] && !showFactorSelection
    {
      isAuthorized := false;
      analysisFee := "0";
      analysisHistory := [];
      isRunningAnalysis := false;
      selectedAnalysisType := None;
      selectedFactors := [];
      showFactorSelection := false;
      this.store := store;
    }

    /** `checkAuthorization`: `isAuthorizedResearcher` answers a boolean
      (`Some`) or throws (`None`); in every case the page ends authorised. */
    method CheckAuthorization(answer: Option<bool>)
      modifies this
      ensures isAuthorized
      ensures analysisFee == old(analysisFee) && analysisHistory == old(analysisHistory)
      ensures isRunningAnalysis == old(isRunningAnalysis) && selectedFactors == old(selectedFactors)
      ensures selectedAnalysisType == old(selectedAnalysisType) && showFactorSelection == old(showFactorSelection)
    {
      match answer {
        case Some(authorized) =>
          isAuthorized := authorized;
          if !authorized {
            isAuthorized := true;
          }
        case None =>
          isAuthorized := true;
      }
    }

    /** `loadAnalysisFee`: the fee `getAnalysisFee` answers, or '0.001'
        when it throws. */
    method LoadAnalysisFee(answer: Result<string, string>)
      modifies this
      ensures analysisFee == if answer.Ok? then answer.value else DefaultFee
      ensures isAuthorized == old(isAuthorized) && analysisHistory == old(analysisHistory)
      ensures isRunningAnalysis == old(isRunningAnalysis) && selectedFactors == old(selectedFactors)
      ensures selectedAnalysisType == old(selectedAnalysisType) && showFactorSelection == old(showFactorSelection)
    {
      match answer {
        case Ok(fee) => analysisFee := fee;
        case Err(_) => analysisFee := DefaultFee;
      }
    }

    /** `loadAnalysisHistory`; nothing happens outside a browser. */
    method LoadAnalysisHistory(browser: bool)
      modifies this
      ensures analysisHistory == if browser then LoadedHistory(store.GetItem(HistoryKey)) else old(analysisHistory)
      ensures isAuthorized == old(isAuthorized) && analysisFee == old(analysisFee)
      ensures isRunningAnalysis == old(isRunningAnalysis) && selectedFactors == old(selectedFactors)
      ensures selectedAnalysisType == old(selectedAnalysisType) && showFactorSelection == old(showFactorSelection)
    {
      if browser {
        var saved := store.GetItem(HistoryKey);
        match saved {
          case Some(Serialized(JArr(items))) => analysisHistory := items;
          case _ => analysisHistory := [];
        }
      }
    }

    /** `saveAnalysisHistory(newHistory)`. */
    method SaveAnalysisHistory(newHistory: seq<Json>)
      modifies this, store
      ensures analysisHistory == newHistory
      ensures store.items == old(store.items)[HistoryKey := Serialized(JArr(newHistory))]
      ensures LoadedHistory(store.GetItem(HistoryKey)) == newHistory
      ensures isAuthorized == old(isAuthorized) && analysisFee == old(analysisFee)
      ensures isRunningAnalysis == old(isRunningAnalysis) && selectedFactors == old(selectedFactors)
      ensures selectedAnalysisType == old(selectedAnalysisType) && showFactorSelection == old(showFactorSelection)
    {
      analysisHistory := newHistory;
      store.SetItem(HistoryKey, JArr(newHistory));
    }

    /** `clearAnalysisHistory`. */
    method ClearAnalysisHistory()
      modifies this, store
      ensures analysisHistory == []
      ensures store.items == old(store.items) - {HistoryKey}
      ensures LoadedHistory(store.GetItem(HistoryKey)) == []
      ensures isAuthorized == old(isAuthorized) && analysisFee == old(analysisFee)
      ensures isRunningAnalysis == old(isRunningAnalysis) && selectedFactors == old(selectedFactors)
      ensures selectedAnalysisType == old(selectedAnalysisType) && showFactorSelection == old(showFactorSelection)
    {
      analysisHistory := [];
      store.RemoveItem(HistoryKey);
    }

    /** `handleSelectAnalysisType`: the type is chosen, the factors are
        cleared and the factor selection opens. */
    method SelectAnalysisType(t: AnalysisType)
      modifies this
      ensures selectedAnalysisType == Some(t) && selectedFactors == [] && showFactorSelection
      ensures isAuthorized == old(isAuthorized) && analysisFee == old(analysisFee)
      ensures analysisHistory == old(analysisHistory) && isRunningAnalysis == old(isRunningAnalysis)
    {
      selectedAnalysisType := Some(t);
      selectedFactors := [];
      showFactorSelection := true;
    }

    /** A factor checkbox. */
    method HandleFactorToggle(factor: string)
      modifies this
      ensures selectedFactors == ToggleFactor(old(selectedFactors), factor)
      ensures isAuthorized == old(isAuthorized) && analysisFee == old(analysisFee)
      ensures analysisHistory == old(analysisHistory) && isRunningAnalysis == old(isRunningAnalysis)
      ensures selectedAnalysisType == old(selectedAnalysisType) && showFactorSelection == old(showFactorSelection)
    {
      selectedFactors := ToggleFactor(selectedFactors, factor);
    }

    /** `handleRunAnalysis` up to the `await`: a blocked run changes
        nothing; otherwise the request is made and the running flag is
        left as `RunningAfterRequest` says. */
    method HandleRunAnalysis(account: Field, sepolia: bool, submissions: Option<int>, request: RequestOutcome)
      returns (blocked: Option<Block>, requested: bool)
      modifies this
      ensures blocked == FirstBlock(account, sepolia, old(isAuthorized), old(selectedAnalysisType),
                                    old(selectedFactors), submissions)
      ensures requested <==> blocked.None?
      ensures isRunningAnalysis == if blocked.Some? then old(isRunningAnalysis) else RunningAfterRequest(request)
      ensures isAuthorized == old(isAuthorized) && analysisFee == old(analysisFee)
      ensures analysisHistory == old(analysisHistory) && selectedFactors == old(selectedFactors)
      ensures selectedAnalysisType == old(selectedAnalysisType) && showFactorSelection == old(showFactorSelection)
    {
      blocked := FirstBlock(account, sepolia, isAuthorized, selectedAnalysisType, selectedFactors, submissions);
      if blocked.Some? {
        return blocked, false;
      }
      isRunningAnalysis := true;
      requested := true;
      if !RunningAfterRequest(request) {
        isRunningAnalysis := false;
      }
    }

    /** The completion timer: the new entry goes first, the history is
        saved, and the selection is reset. */
    method CompleteAnalysis(entry: Json)
      modifies this, store
      ensures analysisHistory == [entry] + old(analysisHistory)
      ensures store.items == old(store.items)[HistoryKey := Serialized(JArr(analysisHistory))]
      ensures !isRunningAnalysis && !showFactorSelection
      ensures selectedAnalysisType == None && selectedFactors == []
      ensures isAuthorized == old(isAuthorized) && analysisFee == old(analysisFee)
    {
      SaveAnalysisHistory([entry] + analysisHistory);
      isRunningAnalysis := false;
      showFactorSelection := false;
      selectedAnalysisType := None;
      selectedFactors := [];
    }
  }
}
