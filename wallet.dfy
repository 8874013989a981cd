/** The wallet context (frontend/contexts/WalletContext.js): the connected
    account, provider, signer, chain id and error, the MetaMask events that
    change them, the switch to the Sepolia test network, and the address
    and network helpers the pages use. MetaMask's and ethers' answers come
    in as parameters. */
module Wallet {

  import opened Wrappers
  import opened Strs

  /** The chain id MetaMask is asked to switch to, in hexadecimal. */
  const SepoliaChainIdHex: string := "0xaa36a7"
  /** The same id as the page stores and compares it, in decimal. */
  const SepoliaChainId: string := "11155111"
  /** `error.code` of a chain MetaMask does not know. */
  const UnrecognizedChain: int := 4902
  const InstallMetaMask: string := "请安装 MetaMask 钱包"

  // ---------------------------------------------------------------------
  // Pure helpers
  // ---------------------------------------------------------------------

  /** `isSepoliaNetwork()`. */
  predicate IsSepolia(chainId: Option<string>)
  {
    chainId == Some(SepoliaChainId)
  }

  /** `address.slice(-4)`: the last four characters, or all of a shorter
      string. */
  function LastFour(s: string): (r: string)
    ensures |r| == if |s| < 4 then |s| else 4
    ensures r == s[|s| - |r|..]
  {
    if |s| < 4 then s else s[|s| - 4..]
  }

  /** `formatAddress(address)`: '' for a missing or empty address,
      otherwise the first six characters, '...' and the last four. */
  function FormatAddress(address: Field): (r: string)
    ensures !Truthy(address) ==> r == ""
    ensures Truthy(address) ==>
            var a := address.s;
            |r| == |Prefix(a, 6)| + 3 + |LastFour(a)| &&
            r[..|Prefix(a, 6)|] == Prefix(a, 6) &&
            r[|Prefix(a, 6)|..|Prefix(a, 6)| + 3] == "..." &&
            r[|r| - |LastFour(a)|..] == LastFour(a)
  {
    if !Truthy(address) then "" else Prefix(address.s, 6) + "..." + LastFour(address.s)
  }

  /** A full 42-character address is shown as 13 characters that keep
      `0x`, the next four digits and the last four. */
  lemma FormatFullAddress(a: string)
    requires |a| == 42
    ensures var r := FormatAddress(Text(a));
            |r| == 13 && r[..6] == a[..6] && r[6..9] == "..." && r[9..] == a[38..]
  {
  }

  /** `parseInt(chainId, 16).toString()`: the decimal text of the hex id
      MetaMask reports, or 'NaN' when it does not parse. */
  function ChainIdOf(hex: string): (r: string)
    ensures ParseHexInt(hex).None? ==> r == "NaN"
  {
    match ParseHexInt(hex)
    case Some(n) => Decimal(n)
    case None => "NaN"
  }

  /** The only number whose decimal text is the Sepolia id is 11155111. */
  lemma DecimalIsSepolia(n: int)
    ensures Decimal(n) == SepoliaChainId <==> n == 11155111
  {
    if n == 11155111 {
      SepoliaDecimal();
    }
    if n < 0 {
      assert Decimal(n)[0] == '-' != SepoliaChainId[0];
    } else if Decimal(n) == SepoliaChainId {
      ToRadixValue(n, 10);
      SepoliaDigits();
    }
  }

  lemma SepoliaDecimal()
    ensures Decimal(11155111) == SepoliaChainId
  {
    assert ToRadix(1, 10) == "1";
    assert ToRadix(11, 10) == "11";
    assert ToRadix(111, 10) == "111";
    assert ToRadix(1115, 10) == "1115";
    assert ToRadix(11155, 10) == "11155";
    assert ToRadix(111551, 10) == "111551";
    assert ToRadix(1115511, 10) == "1115511";
  }

  lemma SepoliaDigits()
    ensures DigitsValue(SepoliaChainId, 10) == 11155111
  {
    SepoliaDecimal();
    ToRadixValue(11155111, 10);
  }

  /** After `chainChanged`, the page is on Sepolia exactly when the
      reported id parses to 11155111. */
  lemma ChainChangedSepolia(hex: string)
    ensures IsSepolia(Some(ChainIdOf(hex))) <==> ParseHexInt(hex) == Some(11155111)
  {
    match ParseHexInt(hex) {
      case Some(n) => DecimalIsSepolia(n);
      case None =>
    }
  }

  /** The id the page asks MetaMask to switch to is the one it recognises
      as Sepolia. */
  lemma SepoliaHexIsSepolia()
    ensures ChainIdOf(SepoliaChainIdHex) == SepoliaChainId
  {
    assert SepoliaChainIdHex[2..] == "aa36a7";
    SepoliaHexDigits();
    SepoliaHexValue();
    assert ParseHexInt(SepoliaChainIdHex) == Some(11155111);
    SepoliaDecimal();
  }

  lemma SepoliaHexDigits()
    ensures DigitPrefix("aa36a7", 16) == "aa36a7"
  {
    var body := "aa36a7";
    assert body[1..] == "a36a7" && body[2..] == "36a7" && body[3..] == "6a7";
    assert body[4..] == "a7" && body[5..] == "7";
    assert DigitPrefix("", 16) == "";
    assert DigitPrefix("7", 16) == "7";
    assert DigitPrefix("a7", 16) == "a7";
    assert DigitPrefix("6a7", 16) == "6a7";
    assert DigitPrefix("36a7", 16) == "36a7";
    assert DigitPrefix("a36a7", 16) == "a36a7";
  }

  lemma SepoliaHexValue()
    ensures DigitsValue("aa36a7", 16) == 11155111
  {
    assert ToRadix(10, 16) == "a";
    assert ToRadix(170, 16) == "aa";
    assert ToRadix(2723, 16) == "aa3";
    assert ToRadix(43574, 16) == "aa36";
    assert ToRadix(697194, 16) == "aa36a";
    assert ToRadix(11155111, 16) == "aa36a7";
    ToRadixValue(11155111, 16);
  }

  // ---------------------------------------------------------------------
  // switchToSepolia
  // ---------------------------------------------------------------------

  /** How a `window.ethereum.request` call ends: it resolves, or rejects
      with an error carrying an optional numeric `code` and a `message`. */
  datatype Reply = Done | Rejected(code: Option<int>, message: string)

  /** Whether `switchToSepolia` goes on to `wallet_addEthereumChain`. */
  predicate AddsChain(switchReply: Reply)
  {
    switchReply.Rejected? && switchReply.code == Some(UnrecognizedChain)
  }

  /** `switchToSepolia`: `Done` when it resolves, otherwise the error it
      throws — the add request's error after code 4902, the switch
      request's error for any other code. */
  function SwitchToSepolia(switchReply: Reply, addReply: Reply): (r: Reply)
    ensures r.Done? <==> switchReply.Done? || (AddsChain(switchReply) && addReply.Done?)
    ensures AddsChain(switchReply) ==> r == addReply
    ensures switchReply.Rejected? && !AddsChain(switchReply) ==> r == switchReply
  {
    match switchReply
    case Done => Done
    case Rejected(code, _) => if code == Some(UnrecognizedChain) then addReply else switchReply
  }

  /** What ethers answers while connecting: the signer's address and the
      network's chain id, or the error one of the requests threw. */
  datatype ConnectReply = Connected(address: string, networkChainId: nat) | ConnectFailed(message: string)

  /** What `checkConnection` learns: the listed accounts and the chain id,
      or a failure. */
  datatype ListReply = Listed(accounts: seq<string>, listedChainId: nat) | ListFailed

  /** The provider and signer objects, identified by what the page reads
      from them. */
  datatype ProviderRef = BrowserProvider
  datatype SignerRef = SignerRef(address: string)

  /** The context's state. */
  class WalletState {
    var account: Field
    var provider: Option<ProviderRef>
    var signer: Option<SignerRef>
    var chainId: Option<string>
    var isConnecting: bool
    var error: Option<string>

    /** Everything starts out `null` and not connecting. */
    constructor()
      ensures account == Absent && provider == None && signer == None && chainId == None
      ensures !isConnecting && error == None
    {
      account := Absent;
      provider := None;
      signer := None;
      chainId := None;
      isConnecting := false;
      error := None;
    }

    /** `disconnectWallet` (also the `disconnect` event). */
    method DisconnectWallet()
      modifies this
      ensures account == Absent && provider == None && signer == None && chainId == None && error == None
      ensures isConnecting == old(isConnecting)
    {
      account := Absent;
      provider := None;
      signer := None;
      chainId := None;
      error := None;
    }

    /** The `accountsChanged` event: no accounts disconnects, otherwise the
        first account becomes the current one. */
    method HandleAccountsChanged(accounts: seq<string>)
      modifies this
      ensures accounts == [] ==>
              account == Absent && provider == None && signer == None && chainId == None && error == None
      ensures accounts != [] ==>
              account == Text(accounts[0]) && provider == old(provider) && signer == old(signer) &&
              chainId == old(chainId) && error == old(error)
      ensures isConnecting == old(isConnecting)
    {
      if |accounts| == 0 {
        DisconnectWallet();
      } else {
        account := Text(accounts[0]);
      }
    }

    /** The `chainChanged` event; the page reload that follows is not
        part of the model. */
    method HandleChainChanged(hex: string)
      modifies this
      ensures chainId == Some(ChainIdOf(hex))
      ensures account == old(account) && provider == old(provider) && signer == old(signer)
      ensures isConnecting == old(isConnecting) && error == old(error)
    {
      chainId := Some(ChainIdOf(hex));
    }

    /** `checkConnection` on load: an already authorised account is
        picked up; otherwise, and on any failure, nothing changes. */
    method CheckConnection(hasEthereum: bool, reply: ListReply)
      modifies this
      ensures hasEthereum && reply.Listed? && reply.accounts != [] ==>
              account == Text(reply.accounts[0]) && provider == Some(BrowserProvider) &&
              signer.Some? && chainId == Some(Decimal(reply.listedChainId))
      ensures !(hasEthereum && reply.Listed? && reply.accounts != []) ==>
              account == old(account) && provider == old(provider) && signer == old(signer) &&
              chainId == old(chainId)
      ensures isConnecting == old(isConnecting) && error == old(error)
    {
      if hasEthereum {
        match reply {
          case Listed(accounts, id) =>
            if |accounts| > 0 {
              provider := Some(BrowserProvider);
              signer := Some(SignerRef(accounts[0]));
              account := Text(accounts[0]);
              chainId := Some(Decimal(id));
            }
          case ListFailed =>
        }
      }
    }

    /** `connectWallet`. Without MetaMask it only sets the install
        message. Otherwise it records the account, provider, signer and
        chain id ethers reports, asks to switch to Sepolia exactly when the
        chain is another one, and answers whether everything succeeded; a
        failure leaves its message in `error`. `isConnecting` is cleared
        on every path (`finally`). */
    method ConnectWallet(hasEthereum: bool, reply: ConnectReply, switchReply: Reply, addReply: Reply)
      returns (ok: bool, switchRequested: bool)
      modifies this
      ensures !hasEthereum ==>
              !ok && !switchRequested && error == Some(InstallMetaMask) &&
              account == old(account) && provider == old(provider) && signer == old(signer) &&
              chainId == old(chainId) && isConnecting == old(isConnecting)
      ensures hasEthereum && reply.ConnectFailed? ==>
              !ok && !switchRequested && error == Some(reply.message) &&
              account == old(account) && provider == old(provider) && signer == old(signer) &&
              chainId == old(chainId) && !isConnecting
      ensures hasEthereum && reply.Connected? ==>
              var switched := SwitchToSepolia(switchReply, addReply);
              account == Text(reply.address) && provider == Some(BrowserProvider) &&
              signer == Some(SignerRef(reply.address)) && chainId == Some(Decimal(reply.networkChainId)) &&
              (switchRequested <==> !IsSepolia(chainId)) &&
              (ok <==> !switchRequested || switched.Done?) &&
              (ok ==> error == None) &&
              (!ok ==> error == Some(switched.message)) &&
              !isConnecting
    {
      switchRequested := false;
      if !hasEthereum {
        error := Some(InstallMetaMask);
        return false, false;
      }
      isConnecting := true;
      error := None;
      match reply {
        case ConnectFailed(message) =>
          error := Some(message);
          ok := false;
        case Connected(address, id) =>
          provider := Some(BrowserProvider);
          signer := Some(SignerRef(address));
          account := Text(address);
          chainId := Some(Decimal(id));
          ok := true;
          if Decimal(id) != SepoliaChainId {
            switchRequested := true;
            var switched := SwitchToSepolia(switchReply, addReply);
            if switched.Rejected? {
              error := Some(switched.message);
              ok := false;
            }
          }
      }
      isConnecting := false;
    }
  }

  /** A wallet already on Sepolia (chain id 11155111) is never asked to
      switch; any other chain is. */
  lemma SwitchOnlyOffSepolia(networkChainId: nat)
    ensures IsSepolia(Some(Decimal(networkChainId))) <==> networkChainId == 11155111
  {
    DecimalIsSepolia(networkChainId);
  }
}
