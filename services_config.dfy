/** The service configuration (frontend/config/services.js): the feature
    flags read from the environment, the health probe of the FHEVM gateway,
    the IPFS endpoint and the contract address, and the choice between the
    real services and their mocks. The environment and the answers of the
    two `fetch` probes are parameters. */
module ServicesConfig {

  import opened Wrappers
  import Strs

  /** The `NEXT_PUBLIC_…` variables the configuration reads. */
  datatype Env = Env(
    fhevmGatewayUrl: Field,
    enableRealEncryption: Field,
    enableRealIpfs: Field,
    contractAddress: Field)

  const DefaultGateway: string := "https://gateway.sepolia.zama.ai"
  const InfuraProtocol: string := "https"
  const InfuraHost: string := "ipfs.infura.io"
  const InfuraPort: nat := 5001

  /** `process.env.X === 'true'`: only the exact text 'true' enables a
      feature. */
  predicate Enabled(flag: Field)
  {
    flag == Text("true")
  }

  lemma EnabledOnlyByTrue(flag: Field)
    ensures Enabled(flag) <==> flag.Text? && flag.s == "true"
    ensures Enabled(Text("TRUE")) == false && Enabled(Text("1")) == false && !Enabled(Absent)
  {
  }

  /** `FHEVM_CONFIG.gatewayUrl`. */
  function GatewayUrl(env: Env): (url: string)
    ensures Truthy(env.fhevmGatewayUrl) ==> url == env.fhevmGatewayUrl.s
    ensures !Truthy(env.fhevmGatewayUrl) ==> url == DefaultGateway
  {
    OrElse(env.fhevmGatewayUrl, DefaultGateway)
  }

  /** The URL of the gateway probe. */
  function FhevmHealthUrl(env: Env): string
  {
    GatewayUrl(env) + "/health"
  }

  /** The URL of the IPFS probe, from the Infura settings. */
  function IpfsVersionUrl(): string
  {
    InfuraProtocol + "://" + InfuraHost + ":" + Strs.Decimal(InfuraPort) + "/api/v0/version"
  }

  /** The IPFS probe goes to Infura's version endpoint on port 5001. */
  lemma IpfsVersionUrlValue()
    ensures IpfsVersionUrl() == "https://ipfs.infura.io:5001/api/v0/version"
  {
    assert Strs.ToRadix(5, 10) == "5";
    assert Strs.ToRadix(50, 10) == "50";
    assert Strs.ToRadix(500, 10) == "500";
    assert Strs.Decimal(InfuraPort) == "5001";
  }

  /** Without an override the gateway probe goes to Zama's Sepolia
      gateway. */
  lemma DefaultGatewayProbe(env: Env)
    requires !Truthy(env.fhevmGatewayUrl)
    ensures FhevmHealthUrl(env) == "https://gateway.sepolia.zama.ai/health"
  {
  }

  /** How a `fetch` ends: a response with its `ok` flag, or a throw. */
  datatype Probe = Responded(ok: bool) | Threw

  /** A request the health check sends. */
  datatype Request = Request(url: string, verb: string)

  /** The `health` record. */
  datatype Health = Health(fhevm: bool, ipfs: bool, contract: bool)

  /** `checkServiceHealth`: the record starts all false, each probe that
      answers sets its flag to `response.ok`, one that throws leaves it
      false, and the contract flag is whether an address is configured. */
  method CheckServiceHealth(env: Env, fhevmProbe: Probe, ipfsProbe: Probe)
    returns (health: Health, requests: seq<Request>)
    ensures health.fhevm <==> fhevmProbe == Responded(true)
    ensures health.ipfs <==> ipfsProbe == Responded(true)
    ensures health.contract <==> Truthy(env.contractAddress)
    ensures requests == [Request(FhevmHealthUrl(env), "GET"), Request(IpfsVersionUrl(), "POST")]
  {
    health := Health(false, false, false);
    requests := [Request(FhevmHealthUrl(env), "GET")];
    match fhevmProbe {
      case Responded(ok) => health := health.(fhevm := ok);
      case Threw =>
    }
    requests := requests + [Request(IpfsVersionUrl(), "POST")];
    match ipfsProbe {
      case Responded(ok) => health := health.(ipfs := ok);
      case Threw =>
    }
    health := health.(contract := Truthy(env.contractAddress));
  }

  /** The choice for one service. */
  datatype Choice = Choice(useReal: bool, fallbackToMock: bool)

  /** `getRecommendedConfig`'s result. */
  datatype Recommended = Recommended(fhevm: Choice, ipfs: Choice)

  function ChoiceOf(healthy: bool, enabled: bool): (c: Choice)
    ensures c.useReal <==> healthy && enabled
  {
    Choice(healthy && enabled, !healthy || !enabled)
  }

  /** The recommendation for a health record under an environment. */
  function Recommend(health: Health, env: Env): (r: Recommended)
    ensures r.fhevm.useReal <==> health.fhevm && Enabled(env.enableRealEncryption)
    ensures r.ipfs.useReal <==> health.ipfs && Enabled(env.enableRealIpfs)
  {
    Recommended(ChoiceOf(health.fhevm, Enabled(env.enableRealEncryption)),
                ChoiceOf(health.ipfs, Enabled(env.enableRealIpfs)))
  }

  /** Each service falls back to its mock exactly when it is not used for
      real; the contract flag plays no part. */
  lemma FallbackIsNotReal(health: Health, env: Env)
    ensures var r := Recommend(health, env);
            r.fhevm.fallbackToMock == !r.fhevm.useReal && r.ipfs.fallbackToMock == !r.ipfs.useReal
    ensures Recommend(health.(contract := !health.contract), env) == Recommend(health, env)
  {
  }

  /** `getRecommendedConfig`: probe, then choose. A probe that throws or a
      flag other than 'true' always means the mock. */
  method GetRecommendedConfig(env: Env, fhevmProbe: Probe, ipfsProbe: Probe)
    returns (r: Recommended)
    ensures r.fhevm.useReal <==> fhevmProbe == Responded(true) && Enabled(env.enableRealEncryption)
    ensures r.ipfs.useReal <==> ipfsProbe == Responded(true) && Enabled(env.enableRealIpfs)
    ensures r.fhevm.fallbackToMock == !r.fhevm.useReal && r.ipfs.fallbackToMock == !r.ipfs.useReal
  {
    var health, _ := CheckServiceHealth(env, fhevmProbe, ipfsProbe);
    r := Recommend(health, env);
    FallbackIsNotReal(health, env);
  }
}
