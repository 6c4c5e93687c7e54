/** The verdict on a gateway's attestation document (src/gateway/verify.ts, src/gateway/appCompose.ts). */
module GatewayVerify {
  import opened Wrappers
  import opened Json
  import opened Text
  import opened GatewayHost
  import opened GatewayBinding
  import opened GatewayEventLog
  import opened GatewayDocuments
  import opened GatewayPolicy

  const TEE_TYPE_TDX: int := 0x81

  /** `hexEqual` of a value that may be absent. */
  predicate HexIs(a: Option<string>, b: string) {
    a.Some? && HexEqual(a.value, b)
  }

  predicate Contains(t: string, part: string) {
    part <= t || (t != "" && Contains(t[1..], part))
  }

  // ----- What must hold for a document to be accepted

  function Payload(h: Host, events: seq<Entry>, name: string): (r: Option<string>) {
    var found := SingleEventPayload(h, events, name);
    if found.Ok? then found.value else None
  }

  predicate Unique(h: Host, events: seq<Entry>, name: string) {
    SingleEventPayload(h, events, name).Ok?
  }

  predicate ReplayMatches(h: Host, events: seq<Entry>, imr: nat, register: string) {
    HexEqual(Register(h, events, imr), register)
  }

  predicate Replays(h: Host, events: seq<Entry>, q: Quote) {
    && ReplayMatches(h, events, 0, q.rtmr0) && ReplayMatches(h, events, 1, q.rtmr1)
    && ReplayMatches(h, events, 2, q.rtmr2) && ReplayMatches(h, events, 3, q.rtmr3)
  }

  /** The log reproduces the four registers, and its RTMR3 events commit to what they display. */
  predicate LogOk(h: Host, events: seq<Entry>, q: Quote) {
    Replays(h, events, q) && AllConsistent(h, events) && LogReadable(h, events)
  }

  predicate LogReadable(h: Host, events: seq<Entry>) {
    && Unique(h, events, "compose-hash") && Unique(h, events, "instance-id") && Unique(h, events, "app-id")
    && Unique(h, events, "key-provider") && Unique(h, events, "os-image-hash")
  }

  datatype LogFacts = LogFacts(
    composeHash: Option<string>, instanceId: Option<string>, appId: Option<string>, keyProvider: Option<string>,
    osImageHash: Option<string>, read: bool)

  const NOTHING := LogFacts(None, None, None, None, None, false)

  function FactsOf(h: Host, events: seq<Entry>): (r: LogFacts) {
    LogFacts(Payload(h, events, "compose-hash"), Payload(h, events, "instance-id"), Payload(h, events, "app-id"),
             Payload(h, events, "key-provider"), Payload(h, events, "os-image-hash"), true)
  }

  /** The measured events agree with the binding, the policy and the VM configuration. */
  predicate FactsOk(h: Host, facts: LogFacts, b: Binding, policy: Policy, vmConfig: Json) {
    && HexIs(facts.composeHash, b.composeHash)
    && facts.read && (facts.instanceId.None? || HexIs(facts.instanceId, b.instanceId))
    && HexIs(facts.appId, b.appId)
    && (policy.keyProviderId != "" ==> Contains(ProviderText(h, facts), Lower(policy.keyProviderId)))
    && (facts.osImageHash.Some? && ReadOsImageHash(h, vmConfig).Some? ==>
          HexIs(facts.osImageHash, ReadOsImageHash(h, vmConfig).value))
  }

  function ProviderText(h: Host, facts: LogFacts): string {
    if facts.keyProvider.None? then "" else Lower(h.text(FromHex(facts.keyProvider.value)))
  }

  predicate ImagesPinned(compose: Option<AppCompose>) {
    && compose.Some? && compose.value.images != []
    && forall i :: 0 <= i < |compose.value.images| ==> compose.value.images[i].digestPinned
  }

  predicate ManifestOk(h: Host, manifest: Json, b: Binding, policy: Policy) {
    var compose := ReadAppCompose(h, manifest);
    && compose.Some?
    && HexEqual(compose.value.composeHash, b.composeHash)
    && (policy.requirePrivateLogs ==> compose.value.publicLogs == Some(false))
    && (policy.requireDigestPinnedImages ==> ImagesPinned(compose))
  }

  predicate PinsOk(b: Binding, q: Quote, facts: LogFacts, policy: Policy) {
    && Among(policy.appIds, b.appId) && Among(policy.composeHashes, b.composeHash)
    && b.releaseId in policy.releaseIds && b.origin in policy.origins
    && (policy.platform.Some? ==> PlatformOk(policy.platform.value, q, facts))
  }

  predicate RegistersPinned(p: Platform, q: Quote) {
    && Among(p.mrTd, q.mrTd) && Among(p.mrConfigId, q.mrConfigId)
    && Among(p.rtmr0, q.rtmr0) && Among(p.rtmr1, q.rtmr1) && Among(p.rtmr2, q.rtmr2)
  }

  predicate PlatformOk(p: Platform, q: Quote, facts: LogFacts) {
    RegistersPinned(p, q) && facts.osImageHash.Some? && Among(p.osImageHash, facts.osImageHash.value)
  }

  predicate TransportOk(b: Binding, e: Expectations) {
    e.policy.requireInTeeTls ==>
      && b.transport == "in-tee-tls"
      && (e.observedTls.Some? ==>
            && e.observedTls.value.Some? && b.tlsSpkiSha256.Some?
            && HexEqual(e.observedTls.value.value, b.tlsSpkiSha256.value))
  }

  predicate ChainVerified(quote: string, e: Expectations) {
    e.chain.Some? && e.chain.value(quote).verified
  }

  predicate ChainOk(quote: string, e: Expectations) {
    ChainVerified(quote, e) || (e.chain.None? && !e.policy.requireHardwareVerified)
  }

  predicate QuoteOk(h: Host, q: Quote, b: Binding) {
    && q.teeType == TEE_TYPE_TDX && !q.debugEnabled
    && BindingHash(h, b).Some? && HexEqual(q.reportData, BindingHash(h, b).value)
  }

  predicate FreshOk(h: Host, b: Binding, e: Expectations) {
    b.nonce == Lower(e.nonce) && CanonicalOrigin(h, e.origin) == Some(b.origin)
  }

  /** Every condition the verifier insists on, given the parsed binding, quote and log. */
  predicate AllOk(h: Host, ev: Evidence, e: Expectations, b: Binding, q: Quote, events: seq<Entry>) {
    var facts := FactsOf(h, events);
    && QuoteOk(h, q, b) && FreshOk(h, b, e) && LogOk(h, events, q)
    && FactsOk(h, facts, b, e.policy, ev.vmConfig) && ManifestOk(h, ev.appCompose, b, e.policy)
    && PinsOk(b, q, facts, e.policy) && TransportOk(b, e) && ChainOk(ev.quote, e)
  }

  predicate Accepts(h: Host, ev: Evidence, e: Expectations) {
    var b, q, events := NormalizeBinding(h, ev.binding), h.quote(ev.quote), ParseEventLog(h, ev.eventLog);
    b.Some? && q.Some? && events.Some? && AllOk(h, ev, e, b.value, q.value, events.value)
  }

  // ----- Checks

  predicate AllPassed(checks: seq<Check>) {
    forall i :: 0 <= i < |checks| && checks[i].required ==> checks[i].passed
  }

  function Push(checks: seq<Check>, name: CheckName, passed: bool, required: bool): (r: seq<Check>)
    ensures AllPassed(r) <==> AllPassed(checks) && (required ==> passed)
  {
    var r := checks + [Check(name, passed, required)];
    assert r[|checks|] == Check(name, passed, required);
    assert forall i :: 0 <= i < |checks| ==> checks[i] == r[i];
    r
  }

  /** The first required check that failed. */
  predicate FirstFailure(checks: seq<Check>, name: CheckName) {
    exists i :: 0 <= i < |checks| && checks[i].name == name && checks[i].required && !checks[i].passed
                && AllPassed(checks[..i])
  }

  // ----- The checks of each section, behind those made before

  function QuoteChecks(h: Host, e: Expectations, b: Binding, q: Quote): seq<Check> {
    CommitmentChecks(ParsedChecks(q), h, e, b, q)
  }

  function ParsedChecks(q: Quote): seq<Check> {
    var parsed := Push(Push([], BindingWellformed, true, true), QuoteParsed, true, true);
    Push(Push(parsed, QuoteIsTdx, q.teeType == TEE_TYPE_TDX, true), QuoteNotDebug, !q.debugEnabled, true)
  }

  function CommitmentChecks(before: seq<Check>, h: Host, e: Expectations, b: Binding, q: Quote): seq<Check> {
    var hash, origin := BindingHash(h, b), CanonicalOrigin(h, e.origin);
    if hash.None? then Push(before, BindingHashComputed, false, true)
    else
      var bound := Push(before, ReportDataBindsBinding, HexEqual(q.reportData, hash.value), true);
      var nonce := Push(bound, NonceMatchesRequest, b.nonce == Lower(e.nonce), true);
      Push(nonce, OriginMatchesConnection, origin.Some? && b.origin == origin.value, true)
  }

  function Unread(before: seq<Check>): seq<Check> {
    Push(Push(before, EventLogReplaysRtmrs, false, true), EventDigestsCommitToPayloads, false, true)
  }

  function LogChecks(before: seq<Check>, h: Host, log: Json, q: Quote): seq<Check> {
    var events := ParseEventLog(h, log);
    if events.None? then Unread(before)
    else
      var replayed := Push(before, EventLogReplaysRtmrs, Replays(h, events.value, q), true);
      var checked := Push(replayed, EventDigestsCommitToPayloads, AllConsistent(h, events.value), true);
      if LogReadable(h, events.value) then checked else Unread(checked)
  }

  function FactChecks(
    before: seq<Check>, h: Host, facts: LogFacts, b: Binding, policy: Policy, vmConfig: Json): seq<Check>
  {
    var image := ReadOsImageHash(h, vmConfig);
    var compose := Push(before, ComposeHashMeasuredInRtmr3, HexIs(facts.composeHash, b.composeHash), true);
    var instance := Push(compose, InstanceIdMeasured,
                         facts.read && (facts.instanceId.None? || HexIs(facts.instanceId, b.instanceId)), true);
    var app := Push(instance, AppIdMeasured, facts.read && HexIs(facts.appId, b.appId), true);
    var provider := if policy.keyProviderId == "" then Push(app, KeyProviderPinned, false, false)
                    else Push(app, KeyProviderPinned,
                              Contains(ProviderText(h, facts), Lower(policy.keyProviderId)), true);
    if facts.osImageHash.Some? && image.Some? then
      Push(provider, VmConfigMatchesMeasuredOsImage, HexIs(facts.osImageHash, image.value), true)
    else Push(provider, VmConfigMatchesMeasuredOsImage, false, false)
  }

  function ManifestChecks(before: seq<Check>, h: Host, manifest: Json, b: Binding, policy: Policy): seq<Check> {
    var compose := ReadAppCompose(h, manifest);
    var parsed := Push(before, AppComposeParsed, compose.Some?, true);
    var matched := Push(parsed, AppComposeMatchesMeasurement,
                        compose.Some? && HexEqual(compose.value.composeHash, b.composeHash), true);
    var logs := if !policy.requirePrivateLogs then matched
                else Push(matched, ComposePublicLogsDisabled,
                          compose.Some? && compose.value.publicLogs == Some(false), true);
    if !policy.requireDigestPinnedImages then logs
    else Push(logs, ComposeImagesDigestPinned, ImagesPinned(compose), true)
  }

  function PinChecks(before: seq<Check>, b: Binding, q: Quote, facts: LogFacts, policy: Policy): seq<Check> {
    var app := Push(before, AppIdPinned, Among(policy.appIds, b.appId), true);
    var compose := Push(app, ComposeHashPinned, Among(policy.composeHashes, b.composeHash), true);
    var release := Push(compose, ReleasePinned, b.releaseId in policy.releaseIds, true);
    var origin := Push(release, OriginPinned, b.origin in policy.origins, true);
    if policy.platform.None? then origin
    else
      var p := policy.platform.value;
      Push(Push(origin, PlatformMeasurementsPinned, RegistersPinned(p, q), true), OsImagePinned,
           facts.osImageHash.Some? && Among(p.osImageHash, facts.osImageHash.value), true)
  }

  predicate CertificateBound(b: Binding, e: Expectations) {
    && e.observedTls.Some? && e.observedTls.value.Some? && b.tlsSpkiSha256.Some?
    && HexEqual(e.observedTls.value.value, b.tlsSpkiSha256.value)
  }

  function ConnectionChecks(before: seq<Check>, ev: Evidence, e: Expectations, b: Binding): seq<Check> {
    var must := e.policy.requireInTeeTls;
    var transport := Push(before, TransportTerminatesInTee, b.transport == "in-tee-tls", must);
    var bound := if !must then transport
                 else Push(transport, TlsCertificateBoundToQuote, CertificateBound(b, e), e.observedTls.Some?);
    var aged := Push(bound, EvidenceRecent, Recent(ev.issuedAt, e.now, e.policy.maxEvidenceAge), false);
    Push(aged, QuoteSignatureChain, ChainVerified(ev.quote, e), e.chain.Some? || e.policy.requireHardwareVerified)
  }

  /** Every check of a document whose binding and quote can be read, in order. */
  function AllChecks(h: Host, ev: Evidence, e: Expectations, b: Binding, q: Quote): seq<Check> {
    var quote := QuoteChecks(h, e, b, q);
    if BindingHash(h, b).None? then quote
    else
      var events := ParseEventLog(h, ev.eventLog);
      var facts := if events.Some? then ReadFacts(h, events.value) else NOTHING;
      var log := LogChecks(quote, h, ev.eventLog, q);
      var measured := FactChecks(log, h, facts, b, e.policy, ev.vmConfig);
      var manifest := ManifestChecks(measured, h, ev.appCompose, b, e.policy);
      ConnectionChecks(PinChecks(manifest, b, q, facts, e.policy), ev, e, b)
  }

  method FindFailure(checks: seq<Check>) returns (name: Option<CheckName>)
    ensures name.None? <==> AllPassed(checks)
    ensures name.Some? ==> FirstFailure(checks, name.value)
  {
    for i := 0 to |checks|
      invariant AllPassed(checks[..i])
    {
      if checks[i].required && !checks[i].passed {
        return Some(checks[i].name);
      }
      assert checks[..i + 1] == checks[..i] + [checks[i]];
    }
    assert checks[..|checks|] == checks;
    return None;
  }

  method Failed(checks: seq<Check>, b: Option<Binding>, compose: Option<AppCompose>, tcb: Option<string>)
    returns (v: Verdict)
    requires !AllPassed(checks)
    ensures !v.ok && v.level == Unverified && v.checks == checks && v.binding == b && v.appCompose == compose
    ensures v.reason.Some? && FirstFailure(checks, v.reason.value)
  {
    var reason := FindFailure(checks);
    v := Verdict(false, Unverified, checks, reason, b, compose, tcb);
  }

  // ----- The verifier

  method ReplaysQuote(h: Host, events: seq<Entry>, q: Quote) returns (replays: bool)
    ensures replays <==> Replays(h, events, q)
  {
    var replayed := ReplayRtmrs(h, events);
    replays := HexEqual(replayed[0], q.rtmr0) && HexEqual(replayed[1], q.rtmr1)
               && HexEqual(replayed[2], q.rtmr2) && HexEqual(replayed[3], q.rtmr3);
  }

  /** Replays the log and reads the named events; a thrown error fails both checks and keeps what was read before it. */
  method CheckLog(h: Host, log: Json, q: Quote, before: seq<Check>) returns (checks: seq<Check>, facts: LogFacts)
    ensures var events := ParseEventLog(h, log);
      facts == if events.Some? then ReadFacts(h, events.value) else NOTHING
    ensures checks == LogChecks(before, h, log, q)
  {
    checks, facts := before, NOTHING;
    var parsed := ParseEventLog(h, log);
    if parsed.None? {
      checks := Push(checks, EventLogReplaysRtmrs, false, true);
      checks := Push(checks, EventDigestsCommitToPayloads, false, true);
      return;
    }
    var events := parsed.value;
    var replays := ReplaysQuote(h, events, q);
    checks := Push(checks, EventLogReplaysRtmrs, replays, true);
    checks := Push(checks, EventDigestsCommitToPayloads, AllConsistent(h, events), true);
    facts := ReadEvents(h, events);
    if !facts.read {
      checks := Push(checks, EventLogReplaysRtmrs, false, true);
      checks := Push(checks, EventDigestsCommitToPayloads, false, true);
    }
  }

  /** What is read of the log, up to the first event that cannot be. */
  function ReadFacts(h: Host, events: seq<Entry>): (facts: LogFacts)
    ensures facts.read <==> LogReadable(h, events)
    ensures facts.read ==> facts == FactsOf(h, events)
  {
    var compose := SingleEventPayload(h, events, "compose-hash");
    if compose.Err? then NOTHING
    else
      var instance := SingleEventPayload(h, events, "instance-id");
      if instance.Err? then NOTHING.(composeHash := compose.value)
      else
        var app := SingleEventPayload(h, events, "app-id");
        if app.Err? then NOTHING.(composeHash := compose.value, instanceId := instance.value)
        else
          var provider := SingleEventPayload(h, events, "key-provider");
          var first := LogFacts(compose.value, instance.value, app.value, None, None, false);
          if provider.Err? then first
          else
            var image := SingleEventPayload(h, events, "os-image-hash");
            if image.Err? then first.(keyProvider := provider.value)
            else first.(keyProvider := provider.value, osImageHash := image.value, read := true)
  }

  method ReadEvents(h: Host, events: seq<Entry>) returns (facts: LogFacts)
    ensures facts == ReadFacts(h, events)
  {
    facts := NOTHING;
    var compose := SingleEventPayload(h, events, "compose-hash");
    if compose.Err? { return; }
    facts := facts.(composeHash := compose.value);
    var instance := SingleEventPayload(h, events, "instance-id");
    if instance.Err? { return; }
    facts := facts.(instanceId := instance.value);
    var app := SingleEventPayload(h, events, "app-id");
    if app.Err? { return; }
    facts := facts.(appId := app.value);
    var provider := SingleEventPayload(h, events, "key-provider");
    if provider.Err? { return; }
    facts := facts.(keyProvider := provider.value);
    var image := SingleEventPayload(h, events, "os-image-hash");
    if image.Err? { return; }
    facts := facts.(osImageHash := image.value, read := true);
  }

  method CheckFacts(h: Host, facts: LogFacts, b: Binding, policy: Policy, vmConfig: Json, before: seq<Check>)
    returns (checks: seq<Check>)
    ensures checks == FactChecks(before, h, facts, b, policy, vmConfig)
  {
    checks := Push(before, ComposeHashMeasuredInRtmr3, HexIs(facts.composeHash, b.composeHash), true);
    checks := Push(checks, InstanceIdMeasured,
                   facts.read && (facts.instanceId.None? || HexIs(facts.instanceId, b.instanceId)), true);
    checks := Push(checks, AppIdMeasured, facts.read && HexIs(facts.appId, b.appId), true);
    if policy.keyProviderId != "" {
      checks := Push(checks, KeyProviderPinned,
                     Contains(ProviderText(h, facts), Lower(policy.keyProviderId)), true);
    } else {
      checks := Push(checks, KeyProviderPinned, false, false);
    }
    var image := ReadOsImageHash(h, vmConfig);
    if facts.osImageHash.Some? && image.Some? {
      checks := Push(checks, VmConfigMatchesMeasuredOsImage, HexIs(facts.osImageHash, image.value), true);
    } else {
      checks := Push(checks, VmConfigMatchesMeasuredOsImage, false, false);
    }
  }

  method CheckManifest(h: Host, manifest: Json, b: Binding, policy: Policy, before: seq<Check>)
    returns (checks: seq<Check>, compose: Option<AppCompose>)
    ensures compose == ReadAppCompose(h, manifest)
    ensures checks == ManifestChecks(before, h, manifest, b, policy)
  {
    compose := ReadAppCompose(h, manifest);
    checks := Push(before, AppComposeParsed, compose.Some?, true);
    checks := Push(checks, AppComposeMatchesMeasurement,
                   compose.Some? && HexEqual(compose.value.composeHash, b.composeHash), true);
    if policy.requirePrivateLogs {
      checks := Push(checks, ComposePublicLogsDisabled,
                     compose.Some? && compose.value.publicLogs == Some(false), true);
    }
    if policy.requireDigestPinnedImages {
      checks := Push(checks, ComposeImagesDigestPinned,
                     compose.Some? && compose.value.images != []
                     && forall i :: 0 <= i < |compose.value.images| ==> compose.value.images[i].digestPinned, true);
    }
  }

  method CheckPins(b: Binding, q: Quote, facts: LogFacts, policy: Policy, before: seq<Check>)
    returns (checks: seq<Check>)
    ensures checks == PinChecks(before, b, q, facts, policy)
  {
    checks := Push(before, AppIdPinned, Among(policy.appIds, b.appId), true);
    checks := Push(checks, ComposeHashPinned, Among(policy.composeHashes, b.composeHash), true);
    checks := Push(checks, ReleasePinned, b.releaseId in policy.releaseIds, true);
    checks := Push(checks, OriginPinned, b.origin in policy.origins, true);
    if policy.platform.Some? {
      var p := policy.platform.value;
      checks := Push(checks, PlatformMeasurementsPinned,
                     Among(p.mrTd, q.mrTd) && Among(p.mrConfigId, q.mrConfigId)
                     && Among(p.rtmr0, q.rtmr0) && Among(p.rtmr1, q.rtmr1)
                     && Among(p.rtmr2, q.rtmr2), true);
      checks := Push(checks, OsImagePinned,
                     facts.osImageHash.Some? && Among(p.osImageHash, facts.osImageHash.value), true);
    }
  }

  predicate Recent(issuedAt: Json, now: real, maximum: real) {
    (issuedAt.JInt? && -60_000.0 <= now - issuedAt.n as real <= maximum)
    || (issuedAt.JFraction? && -60_000.0 <= now - issuedAt.x <= maximum)
  }

  method CheckConnection(ev: Evidence, e: Expectations, b: Binding, before: seq<Check>)
    returns (checks: seq<Check>, verified: bool, tcb: Option<string>)
    ensures verified <==> ChainVerified(ev.quote, e)
    ensures checks == ConnectionChecks(before, ev, e, b)
  {
    checks := Push(before, TransportTerminatesInTee, b.transport == "in-tee-tls", e.policy.requireInTeeTls);
    if e.policy.requireInTeeTls {
      if e.observedTls.Some? {
        checks := Push(checks, TlsCertificateBoundToQuote,
                       e.observedTls.value.Some? && b.tlsSpkiSha256.Some?
                       && HexEqual(e.observedTls.value.value, b.tlsSpkiSha256.value), true);
      } else {
        checks := Push(checks, TlsCertificateBoundToQuote, false, false);
      }
    }
    checks := Push(checks, EvidenceRecent, Recent(ev.issuedAt, e.now, e.policy.maxEvidenceAge), false);
    verified, tcb := false, None;
    if e.chain.Some? {
      var outcome := e.chain.value(ev.quote);
      verified, tcb := outcome.verified, outcome.tcbStatus;
      checks := Push(checks, QuoteSignatureChain, verified, true);
    } else {
      checks := Push(checks, QuoteSignatureChain, false, e.policy.requireHardwareVerified);
    }
  }

  /** The checks of a document whose binding, quote and binding hash are known, from the first to the last. */
  method CheckDocument(h: Host, ev: Evidence, e: Expectations, b: Binding, q: Quote, hash: string)
    returns (checks: seq<Check>, compose: Option<AppCompose>, verified: bool, tcb: Option<string>)
    requires BindingHash(h, b) == Some(hash)
    ensures checks == AllChecks(h, ev, e, b, q)
    ensures compose == ReadAppCompose(h, ev.appCompose) && verified == ChainVerified(ev.quote, e)
  {
    checks := ParsedChecks(q);
    checks := Push(checks, ReportDataBindsBinding, HexEqual(q.reportData, hash), true);
    var origin := CanonicalOrigin(h, e.origin);
    checks := Push(checks, NonceMatchesRequest, b.nonce == Lower(e.nonce), true);
    checks := Push(checks, OriginMatchesConnection, origin.Some? && b.origin == origin.value, true);
    var facts;
    checks, facts := CheckLog(h, ev.eventLog, q, checks);
    checks := CheckFacts(h, facts, b, e.policy, ev.vmConfig, checks);
    checks, compose := CheckManifest(h, ev.appCompose, b, e.policy, checks);
    checks := CheckPins(b, q, facts, e.policy, checks);
    checks, verified, tcb := CheckConnection(ev, e, b, checks);
  }

  /**
   * `verifyGatewayAttestation` answers `ok` exactly when the document is acceptable, and
   * otherwise names the first failed check.
   */
  method VerifyGatewayAttestation(h: Host, ev: Evidence, e: Expectations) returns (v: Verdict)
    ensures v.ok <==> Accepts(h, ev, e)
    ensures v.ok <==> AllPassed(v.checks)
    ensures v.level == if !v.ok then Unverified
                       else if ChainVerified(ev.quote, e) then HardwareVerified else ProviderAttested
    ensures v.ok && e.policy.requireHardwareVerified ==> v.level == HardwareVerified
    ensures if v.ok then v.reason == None else v.reason.Some? && FirstFailure(v.checks, v.reason.value)
    ensures v.binding == NormalizeBinding(h, ev.binding)
    ensures v.ok ==> v.appCompose == ReadAppCompose(h, ev.appCompose)
    ensures v.ok ==> v.binding.Some? && v.appCompose.Some? && Obeys(v.binding.value, v.appCompose.value, e)
    ensures v.binding.Some? && h.quote(ev.quote).Some? ==>
      v.checks == AllChecks(h, ev, e, v.binding.value, h.quote(ev.quote).value)
  {
    var binding := NormalizeBinding(h, ev.binding);
    var checks := Push([], BindingWellformed, binding.Some?, true);
    if binding.None? {
      v := Failed(checks, None, None, None);
      return;
    }
    var b := binding.value;
    var quote := h.quote(ev.quote);
    checks := Push(checks, QuoteParsed, quote.Some?, true);
    if quote.None? {
      v := Failed(checks, binding, None, None);
      return;
    }
    var q := quote.value;
    AllChecksPass(h, ev, e, b, q);
    var hash := BindingHash(h, b);
    if hash.None? {
      checks := Push(ParsedChecks(q), BindingHashComputed, false, true);
      v := Failed(checks, binding, None, None);
      return;
    }
    var compose, verified, tcb;
    checks, compose, verified, tcb := CheckDocument(h, ev, e, b, q, hash.value);
    var failure := FindFailure(checks);
    if failure.Some? {
      v := Failed(checks, binding, compose, tcb);
      return;
    }
    AcceptedObeys(h, ev, e);
    v := Verdict(true, if verified then HardwareVerified else ProviderAttested, checks, None, binding, compose, tcb);
  }

  /** What a caller who was answered `ok` may rely on, switch by switch of the policy. */
  predicate Obeys(b: Binding, compose: AppCompose, e: Expectations) {
    var policy := e.policy;
    && b.nonce == Lower(e.nonce)
    && b.origin in policy.origins && b.releaseId in policy.releaseIds
    && (exists i :: 0 <= i < |policy.appIds| && HexEqual(policy.appIds[i], b.appId))
    && (exists i :: 0 <= i < |policy.composeHashes| && HexEqual(policy.composeHashes[i], b.composeHash))
    && HexEqual(compose.composeHash, b.composeHash)
    && (policy.requireInTeeTls ==> b.transport == "in-tee-tls")
    && (policy.requireInTeeTls && e.observedTls.Some? ==>
          && e.observedTls.value.Some? && b.tlsSpkiSha256.Some?
          && HexEqual(e.observedTls.value.value, b.tlsSpkiSha256.value))
    && (policy.requirePrivateLogs ==> compose.publicLogs == Some(false))
    && (policy.requireDigestPinnedImages ==>
          compose.images != [] && forall i :: 0 <= i < |compose.images| ==> compose.images[i].digestPinned)
  }

  lemma AcceptedObeys(h: Host, ev: Evidence, e: Expectations)
    requires Accepts(h, ev, e)
    ensures ReadAppCompose(h, ev.appCompose).Some?
    ensures Obeys(NormalizeBinding(h, ev.binding).value, ReadAppCompose(h, ev.appCompose).value, e)
  {
  }

  /** The required checks all pass exactly when the document is acceptable. */
  lemma AllChecksPass(h: Host, ev: Evidence, e: Expectations, b: Binding, q: Quote)
    ensures var events := ParseEventLog(h, ev.eventLog);
      AllPassed(AllChecks(h, ev, e, b, q)) <==> events.Some? && AllOk(h, ev, e, b, q, events.value)
  {
    QuoteChecksPass(h, e, b, q);
    if BindingHash(h, b).Some? {
      var events := ParseEventLog(h, ev.eventLog);
      var facts := if events.Some? then ReadFacts(h, events.value) else NOTHING;
      var quote := QuoteChecks(h, e, b, q);
      var log := LogChecks(quote, h, ev.eventLog, q);
      var measured := FactChecks(log, h, facts, b, e.policy, ev.vmConfig);
      var manifest := ManifestChecks(measured, h, ev.appCompose, b, e.policy);
      LogChecksPass(quote, h, ev.eventLog, q);
      FactChecksPass(log, h, facts, b, e.policy, ev.vmConfig);
      ManifestChecksPass(measured, h, ev.appCompose, b, e.policy);
      PinChecksPass(manifest, b, q, facts, e.policy);
      ConnectionChecksPass(PinChecks(manifest, b, q, facts, e.policy), ev, e, b);
    }
  }

  lemma QuoteChecksPass(h: Host, e: Expectations, b: Binding, q: Quote)
    ensures AllPassed(QuoteChecks(h, e, b, q)) <==> QuoteOk(h, q, b) && FreshOk(h, b, e)
  {
  }

  lemma LogChecksPass(before: seq<Check>, h: Host, log: Json, q: Quote)
    ensures var events := ParseEventLog(h, log);
      AllPassed(LogChecks(before, h, log, q)) <==> AllPassed(before) && events.Some? && LogOk(h, events.value, q)
  {
  }

  lemma FactChecksPass(before: seq<Check>, h: Host, facts: LogFacts, b: Binding, policy: Policy, vmConfig: Json)
    ensures AllPassed(FactChecks(before, h, facts, b, policy, vmConfig)) <==>
      AllPassed(before) && FactsOk(h, facts, b, policy, vmConfig)
  {
  }

  lemma ManifestChecksPass(before: seq<Check>, h: Host, manifest: Json, b: Binding, policy: Policy)
    ensures AllPassed(ManifestChecks(before, h, manifest, b, policy)) <==>
      AllPassed(before) && ManifestOk(h, manifest, b, policy)
  {
  }

  lemma PinChecksPass(before: seq<Check>, b: Binding, q: Quote, facts: LogFacts, policy: Policy)
    ensures AllPassed(PinChecks(before, b, q, facts, policy)) <==> AllPassed(before) && PinsOk(b, q, facts, policy)
  {
  }

  lemma ConnectionChecksPass(before: seq<Check>, ev: Evidence, e: Expectations, b: Binding)
    ensures AllPassed(ConnectionChecks(before, ev, e, b)) <==>
      AllPassed(before) && TransportOk(b, e) && ChainOk(ev.quote, e)
  {
  }

  // ----- The conditions, one by one

  lemma {:induction false} ContainsMeans(t: string, part: string)
    ensures Contains(t, part) <==> exists u, v :: t == u + part + v
  {
    if part <= t {
      assert t == "" + part + t[|part|..];
    } else if t != "" {
      ContainsMeans(t[1..], part);
      if u, v :| t[1..] == u + part + v {
        assert t == ([t[0]] + u) + part + v;
      }
      if u, v :| t == u + part + v {
        assert u != "" by {
          assert u == "" ==> t == part + v;
        }
        assert t[1..] == u[1..] + part + v;
      }
    }
  }

  lemma UniqueMeans(h: Host, events: seq<Entry>, name: string)
    ensures Unique(h, events, name) <==> Singular(h, events, name)
    ensures Unique(h, events, name) ==> (Payload(h, events, name) == None <==> NotNamed(events, name))
  {
    var found := SingleEventPayload(h, events, name);
    if found.Ok? && found.value.Some? {
      SingleEventMeans(h, events, name, found.value.value);
    }
    if i :| NamedOnce(events, name, i) && events[i].imr == 3 && Consistent(h, events[i]) {
      SingleEventMeans(h, events, name, events[i].payload);
    }
  }

  lemma PayloadShows(h: Host, events: seq<Entry>, name: string, t: string)
    requires Unique(h, events, name)
    ensures Payload(h, events, name) == Some(t) <==> Shows(events, name, t)
  {
    UniqueMeans(h, events, name);
    if Payload(h, events, name).Some? {
      SingleEventMeans(h, events, name, Payload(h, events, name).value);
      var i :| NamedOnce(events, name, i) && events[i].payload == Payload(h, events, name).value;
      forall j | 0 <= j < |events| && events[j].event == name
        ensures j == i
      {
        NamedOnceIsOnly(events, name, i, j);
      }
    }
  }

  lemma NamedOnceIsOnly(events: seq<Entry>, name: string, i: int, j: int)
    requires NamedOnce(events, name, i) && 0 <= j < |events| && events[j].event == name
    ensures j == i
  {
    assert forall k :: 0 <= k < i ==> events[..i][k] == events[k];
    assert forall k :: i < k < |events| ==> events[k] == events[i + 1..][k - i - 1];
  }

  lemma ReadableMeans(h: Host, events: seq<Entry>)
    ensures LogReadable(h, events) <==> Readable(h, events)
  {
    UniqueMeans(h, events, "compose-hash");
    UniqueMeans(h, events, "instance-id");
    UniqueMeans(h, events, "app-id");
    UniqueMeans(h, events, "key-provider");
    UniqueMeans(h, events, "os-image-hash");
  }

  /** Some event of the name shows a value hex-equal to `b`. */
  lemma HexIsShown(h: Host, events: seq<Entry>, name: string, b: string)
    requires Unique(h, events, name)
    ensures HexIs(Payload(h, events, name), b) <==> exists t :: Shows(events, name, t) && HexEqual(t, b)
    ensures Payload(h, events, name).Some? <==> exists t :: Shows(events, name, t)
    ensures Payload(h, events, name).None? || HexIs(Payload(h, events, name), b)
       <==> forall t :: Shows(events, name, t) ==> HexEqual(t, b)
  {
    var p := Payload(h, events, name);
    forall t
      ensures Shows(events, name, t) <==> p == Some(t)
    {
      PayloadShows(h, events, name, t);
    }
    assert p.Some? ==> Shows(events, name, p.value);
  }
  lemma QuoteMeans(h: Host, ev: Evidence, e: Expectations, b: Binding, q: Quote, events: seq<Entry>)
    ensures QuoteOk(h, q, b) && FreshOk(h, b, e) <==>
      forall name :: Insists(h, ev, e, events, name) ==> QuoteAsks(h, e, b, q, name)
  {
    if forall name :: Insists(h, ev, e, events, name) ==> QuoteAsks(h, e, b, q, name) {
      assert Insists(h, ev, e, events, QuoteIsTdx) && Insists(h, ev, e, events, QuoteNotDebug);
      assert Insists(h, ev, e, events, ReportDataBindsBinding);
      assert Insists(h, ev, e, events, NonceMatchesRequest) && Insists(h, ev, e, events, OriginMatchesConnection);
    }
  }

  lemma LogMeans(h: Host, ev: Evidence, e: Expectations, q: Quote, events: seq<Entry>)
    ensures LogOk(h, events, q) <==>
      Readable(h, events) && forall name :: Insists(h, ev, e, events, name) ==> LogAsks(h, q, events, name)
  {
    LogConditions(h, q, events);
    assert Insists(h, ev, e, events, EventLogReplaysRtmrs) && Insists(h, ev, e, events, EventDigestsCommitToPayloads);
  }

  lemma LogConditions(h: Host, q: Quote, events: seq<Entry>)
    ensures LogOk(h, events, q) <==>
      && Readable(h, events)
      && LogAsks(h, q, events, EventLogReplaysRtmrs) && LogAsks(h, q, events, EventDigestsCommitToPayloads)
  {
    LogAsked(h, q, events);
    ReadableMeans(h, events);
  }

  lemma LogAsked(h: Host, q: Quote, events: seq<Entry>)
    ensures Replays(h, events, q) == LogAsks(h, q, events, EventLogReplaysRtmrs)
    ensures AllConsistent(h, events) == LogAsks(h, q, events, EventDigestsCommitToPayloads)
  {
    RegisterAsked(h, events, 0, q.rtmr0);
    RegisterAsked(h, events, 1, q.rtmr1);
    RegisterAsked(h, events, 2, q.rtmr2);
    RegisterAsked(h, events, 3, q.rtmr3);
    EventsAsked(h, events, q);
  }

  lemma RegisterAsked(h: Host, events: seq<Entry>, imr: nat, value: string)
    ensures ReplayMatches(h, events, imr, value) == RegisterIs(h, events, imr, value)
  {
  }

  lemma EventsAsked(h: Host, events: seq<Entry>, q: Quote)
    ensures AllConsistent(h, events) == LogAsks(h, q, events, EventDigestsCommitToPayloads)
  {
  }

  lemma IdentityMeans(h: Host, ev: Evidence, e: Expectations, b: Binding, events: seq<Entry>)
    requires LogReadable(h, events)
    ensures var facts := FactsOf(h, events);
      && HexIs(facts.composeHash, b.composeHash) && HexIs(facts.appId, b.appId)
      && (facts.instanceId.None? || HexIs(facts.instanceId, b.instanceId))
      <==> forall name :: Insists(h, ev, e, events, name) ==> IdentityAsks(events, b, name)
  {
    IdentityIsInsisted(h, ev, e, b, events);
    IdentityIsShown(h, b, events);
  }

  lemma IdentityIsInsisted(h: Host, ev: Evidence, e: Expectations, b: Binding, events: seq<Entry>)
    ensures (forall name :: Insists(h, ev, e, events, name) ==> IdentityAsks(events, b, name)) ==
      (IdentityAsks(events, b, ComposeHashMeasuredInRtmr3) && IdentityAsks(events, b, InstanceIdMeasured)
       && IdentityAsks(events, b, AppIdMeasured))
  {
    assert Insists(h, ev, e, events, ComposeHashMeasuredInRtmr3) && Insists(h, ev, e, events, InstanceIdMeasured);
    assert Insists(h, ev, e, events, AppIdMeasured);
  }

  lemma IdentityIsShown(h: Host, b: Binding, events: seq<Entry>)
    requires LogReadable(h, events)
    ensures var facts := FactsOf(h, events);
      && (HexIs(facts.composeHash, b.composeHash) <==> IdentityAsks(events, b, ComposeHashMeasuredInRtmr3))
      && (facts.instanceId.None? || HexIs(facts.instanceId, b.instanceId) <==>
            IdentityAsks(events, b, InstanceIdMeasured))
      && (HexIs(facts.appId, b.appId) <==> IdentityAsks(events, b, AppIdMeasured))
  {
    ComposeIsShown(h, b, events);
    InstanceIsShown(h, b, events);
    AppIsShown(h, b, events);
  }

  lemma ComposeIsShown(h: Host, b: Binding, events: seq<Entry>)
    requires Unique(h, events, "compose-hash")
    ensures HexIs(Payload(h, events, "compose-hash"), b.composeHash) <==>
      IdentityAsks(events, b, ComposeHashMeasuredInRtmr3)
  {
    HexIsShown(h, events, "compose-hash", b.composeHash);
  }

  lemma InstanceIsShown(h: Host, b: Binding, events: seq<Entry>)
    requires Unique(h, events, "instance-id")
    ensures Payload(h, events, "instance-id").None? || HexIs(Payload(h, events, "instance-id"), b.instanceId)
       <==> IdentityAsks(events, b, InstanceIdMeasured)
  {
    HexIsShown(h, events, "instance-id", b.instanceId);
  }

  lemma AppIsShown(h: Host, b: Binding, events: seq<Entry>)
    requires Unique(h, events, "app-id")
    ensures HexIs(Payload(h, events, "app-id"), b.appId) <==> IdentityAsks(events, b, AppIdMeasured)
  {
    HexIsShown(h, events, "app-id", b.appId);
  }

  lemma MeasuredMeans(h: Host, ev: Evidence, e: Expectations, events: seq<Entry>)
    requires LogReadable(h, events)
    ensures var facts, image := FactsOf(h, events), ReadOsImageHash(h, ev.vmConfig);
      && (e.policy.keyProviderId != "" ==> Contains(ProviderText(h, facts), Lower(e.policy.keyProviderId)))
      && (facts.osImageHash.Some? && image.Some? ==> HexIs(facts.osImageHash, image.value))
      <==> forall name :: Insists(h, ev, e, events, name) ==> MeasuredAsks(h, ev, e, events, name)
  {
    ProviderIsAsked(h, ev, e, events);
    ImageIsAsked(h, ev, e, events);
  }

  lemma ProviderIsAsked(h: Host, ev: Evidence, e: Expectations, events: seq<Entry>)
    requires Unique(h, events, "key-provider")
    ensures (e.policy.keyProviderId != "" ==>
               Contains(ProviderText(h, FactsOf(h, events)), Lower(e.policy.keyProviderId)))
       <==> (Insists(h, ev, e, events, KeyProviderPinned) ==> MeasuredAsks(h, ev, e, events, KeyProviderPinned))
  {
    ProviderMeans(h, e, events);
  }

  lemma ImageIsAsked(h: Host, ev: Evidence, e: Expectations, events: seq<Entry>)
    requires Unique(h, events, "os-image-hash")
    ensures var shown, image := Payload(h, events, "os-image-hash"), ReadOsImageHash(h, ev.vmConfig);
      (shown.Some? && image.Some? ==> HexIs(shown, image.value))
      <==> (Insists(h, ev, e, events, VmConfigMatchesMeasuredOsImage) ==>
              MeasuredAsks(h, ev, e, events, VmConfigMatchesMeasuredOsImage))
  {
    VmConfigMeans(h, ev, events);
  }

  lemma ProviderMeans(h: Host, e: Expectations, events: seq<Entry>)
    requires Unique(h, events, "key-provider")
    ensures Contains(ProviderText(h, FactsOf(h, events)), Lower(e.policy.keyProviderId)) <==>
      exists u, v :: Provider(h, events, u + Lower(e.policy.keyProviderId) + v)
  {
    var text := ProviderText(h, FactsOf(h, events));
    UniqueMeans(h, events, "key-provider");
    forall t
      ensures Provider(h, events, t) <==> t == text
    {
      ProviderTextMeans(h, events, t);
    }
    ContainsMeans(text, Lower(e.policy.keyProviderId));
  }

  lemma ProviderTextMeans(h: Host, events: seq<Entry>, text: string)
    requires Unique(h, events, "key-provider")
    ensures Provider(h, events, text) <==> text == ProviderText(h, FactsOf(h, events))
  {
    UniqueMeans(h, events, "key-provider");
    var p := Payload(h, events, "key-provider");
    if p.Some? {
      PayloadShows(h, events, "key-provider", p.value);
    }
    if t :| Shows(events, "key-provider", t) && text == Lower(h.text(FromHex(t))) {
      PayloadShows(h, events, "key-provider", t);
    }
  }

  lemma VmConfigMeans(h: Host, ev: Evidence, events: seq<Entry>)
    requires Unique(h, events, "os-image-hash")
    ensures var shown, image := Payload(h, events, "os-image-hash"), ReadOsImageHash(h, ev.vmConfig);
      && (shown.Some? <==> exists t :: Shows(events, "os-image-hash", t))
      && (image.Some? ==>
            (HexIs(shown, image.value) <==> exists t :: Shows(events, "os-image-hash", t) && HexEqual(t, image.value)))
  {
    var image := ReadOsImageHash(h, ev.vmConfig);
    HexIsShown(h, events, "os-image-hash", if image.Some? then image.value else "");
  }

  lemma ManifestMeans(h: Host, ev: Evidence, e: Expectations, b: Binding, events: seq<Entry>)
    ensures ManifestOk(h, ev.appCompose, b, e.policy) <==>
      forall name :: Insists(h, ev, e, events, name) ==> ManifestAsks(h, ev.appCompose, b, name)
  {
    ManifestConditions(h, ev.appCompose, b, e.policy);
    assert Insists(h, ev, e, events, AppComposeParsed) && Insists(h, ev, e, events, AppComposeMatchesMeasurement);
    assert Insists(h, ev, e, events, ComposePublicLogsDisabled) <==> e.policy.requirePrivateLogs;
    assert Insists(h, ev, e, events, ComposeImagesDigestPinned) <==> e.policy.requireDigestPinnedImages;
  }

  lemma ManifestConditions(h: Host, manifest: Json, b: Binding, policy: Policy)
    ensures ManifestOk(h, manifest, b, policy) ==
      (ManifestAsks(h, manifest, b, AppComposeParsed)
       && ManifestAsks(h, manifest, b, AppComposeMatchesMeasurement)
       && (policy.requirePrivateLogs ==> ManifestAsks(h, manifest, b, ComposePublicLogsDisabled))
       && (policy.requireDigestPinnedImages ==> ManifestAsks(h, manifest, b, ComposeImagesDigestPinned)))
  {
    ImagesPinnedMeans(h, manifest, b);
  }

  lemma ImagesPinnedMeans(h: Host, manifest: Json, b: Binding)
    ensures ImagesPinned(ReadAppCompose(h, manifest)) == ManifestAsks(h, manifest, b, ComposeImagesDigestPinned)
  {
    var compose := ReadAppCompose(h, manifest);
    if compose.Some? {
      var images := compose.value.images;
      assert forall i :: 0 <= i < |images| ==> images[i] in images;
    }
  }

  lemma PinsMean(h: Host, ev: Evidence, e: Expectations, b: Binding, q: Quote, events: seq<Entry>)
    requires LogReadable(h, events)
    ensures PinsOk(b, q, FactsOf(h, events), e.policy) ==
      ((forall name :: Insists(h, ev, e, events, name) ==> PinAsks(e.policy, b, name))
       && (forall name :: Insists(h, ev, e, events, name) ==> PlatformAsks(e.policy, q, events, name)))
  {
    PinsAreInsisted(h, ev, e, b, events);
    PlatformIsInsisted(h, ev, e, q, events);
    if e.policy.platform.Some? {
      PlatformMeans(h, e.policy, q, events);
    }
  }

  lemma PinsAreInsisted(h: Host, ev: Evidence, e: Expectations, b: Binding, events: seq<Entry>)
    ensures (forall name :: Insists(h, ev, e, events, name) ==> PinAsks(e.policy, b, name)) ==
      (Among(e.policy.appIds, b.appId) && Among(e.policy.composeHashes, b.composeHash)
       && b.releaseId in e.policy.releaseIds && b.origin in e.policy.origins)
  {
    assert Insists(h, ev, e, events, AppIdPinned) && Insists(h, ev, e, events, ComposeHashPinned);
    assert Insists(h, ev, e, events, ReleasePinned) && Insists(h, ev, e, events, OriginPinned);
  }

  lemma PlatformIsInsisted(h: Host, ev: Evidence, e: Expectations, q: Quote, events: seq<Entry>)
    ensures (forall name :: Insists(h, ev, e, events, name) ==> PlatformAsks(e.policy, q, events, name)) ==
      (e.policy.platform.Some? ==>
         PlatformAsks(e.policy, q, events, PlatformMeasurementsPinned)
         && PlatformAsks(e.policy, q, events, OsImagePinned))
  {
    assert Insists(h, ev, e, events, PlatformMeasurementsPinned) == e.policy.platform.Some?;
    assert Insists(h, ev, e, events, OsImagePinned) == e.policy.platform.Some?;
  }

  lemma PlatformMeans(h: Host, policy: Policy, q: Quote, events: seq<Entry>)
    requires Unique(h, events, "os-image-hash") && policy.platform.Some?
    ensures PlatformOk(policy.platform.value, q, FactsOf(h, events)) ==
      (PlatformAsks(policy, q, events, PlatformMeasurementsPinned) && PlatformAsks(policy, q, events, OsImagePinned))
  {
    RegistersMean(policy, q, events);
    OsImageAsked(h, policy, q, events);
  }

  lemma RegistersMean(policy: Policy, q: Quote, events: seq<Entry>)
    requires policy.platform.Some?
    ensures RegistersPinned(policy.platform.value, q) == PlatformAsks(policy, q, events, PlatformMeasurementsPinned)
  {
    var p := policy.platform.value;
  }

  lemma ImageAmong(h: Host, values: seq<string>, events: seq<Entry>)
    requires Unique(h, events, "os-image-hash")
    ensures var shown := Payload(h, events, "os-image-hash");
      shown.Some? && Among(values, shown.value) <==>
        exists t :: Shows(events, "os-image-hash", t) && Among(values, t)
  {
    var shown := Payload(h, events, "os-image-hash");
    if shown.Some? {
      PayloadShows(h, events, "os-image-hash", shown.value);
    }
    if t :| Shows(events, "os-image-hash", t) && Among(values, t) {
      PayloadShows(h, events, "os-image-hash", t);
    }
  }

  lemma OsImageAsked(h: Host, policy: Policy, q: Quote, events: seq<Entry>)
    requires Unique(h, events, "os-image-hash") && policy.platform.Some?
    ensures var shown := FactsOf(h, events).osImageHash;
      (shown.Some? && Among(policy.platform.value.osImageHash, shown.value)) ==
        PlatformAsks(policy, q, events, OsImagePinned)
  {
    ImageAmong(h, policy.platform.value.osImageHash, events);
  }

  lemma ConnectionMeans(h: Host, ev: Evidence, e: Expectations, b: Binding, events: seq<Entry>)
    ensures TransportOk(b, e) && ChainOk(ev.quote, e) <==>
      forall name :: Insists(h, ev, e, events, name) ==> ConnectionAsks(ev, e, b, name)
  {
    assert Insists(h, ev, e, events, TransportTerminatesInTee) <==> e.policy.requireInTeeTls;
    assert Insists(h, ev, e, events, TlsCertificateBoundToQuote) <==> e.policy.requireInTeeTls && e.observedTls.Some?;
    assert Insists(h, ev, e, events, QuoteSignatureChain) <==> e.chain.Some? || e.policy.requireHardwareVerified;
  }

  // A group asks nothing of the other groups' checks, so every check asks what all groups ask of it.

  lemma QuoteAsksItsOwn(c: Case, name: CheckName)
    requires !OfQuote(name)
    ensures QuoteAsks(c.h, c.e, c.b, c.q, name)
  {
  }

  lemma LogAsksItsOwn(c: Case, name: CheckName)
    requires !OfLog(name)
    ensures LogAsks(c.h, c.q, c.events, name)
  {
  }

  lemma IdentityAsksItsOwn(c: Case, name: CheckName)
    requires !OfIdentity(name)
    ensures IdentityAsks(c.events, c.b, name)
  {
  }

  lemma MeasuredAsksItsOwn(c: Case, name: CheckName)
    requires !OfMeasured(name)
    ensures MeasuredAsks(c.h, c.ev, c.e, c.events, name)
  {
  }

  lemma ManifestAsksItsOwn(c: Case, name: CheckName)
    requires !OfManifest(name)
    ensures ManifestAsks(c.h, c.ev.appCompose, c.b, name)
  {
  }

  lemma PinAsksItsOwn(c: Case, name: CheckName)
    requires !OfPin(name)
    ensures PinAsks(c.e.policy, c.b, name)
  {
  }

  lemma PlatformAsksItsOwn(c: Case, name: CheckName)
    requires !OfPlatform(name)
    ensures PlatformAsks(c.e.policy, c.q, c.events, name)
  {
  }

  lemma ConnectionAsksItsOwn(c: Case, name: CheckName)
    requires !OfConnection(name)
    ensures ConnectionAsks(c.ev, c.e, c.b, name)
  {
  }

  lemma AsksWhatGroupsAsk(c: Case, name: CheckName)
    ensures Asks(c, name) <==>
      && QuoteAsks(c.h, c.e, c.b, c.q, name)
      && LogAsks(c.h, c.q, c.events, name)
      && IdentityAsks(c.events, c.b, name)
      && MeasuredAsks(c.h, c.ev, c.e, c.events, name)
      && ManifestAsks(c.h, c.ev.appCompose, c.b, name)
      && PinAsks(c.e.policy, c.b, name)
      && PlatformAsks(c.e.policy, c.q, c.events, name)
      && ConnectionAsks(c.ev, c.e, c.b, name)
  {
    if !OfQuote(name) {
      QuoteAsksItsOwn(c, name);
    }
    if !OfLog(name) {
      LogAsksItsOwn(c, name);
    }
    if !OfIdentity(name) {
      IdentityAsksItsOwn(c, name);
    }
    if !OfMeasured(name) {
      MeasuredAsksItsOwn(c, name);
    }
    if !OfManifest(name) {
      ManifestAsksItsOwn(c, name);
    }
    if !OfPin(name) {
      PinAsksItsOwn(c, name);
    }
    if !OfPlatform(name) {
      PlatformAsksItsOwn(c, name);
    }
    if !OfConnection(name) {
      ConnectionAsksItsOwn(c, name);
    }
  }

  lemma AllOkExactly(h: Host, ev: Evidence, e: Expectations, b: Binding, q: Quote, events: seq<Entry>)
    ensures AllOk(h, ev, e, b, q, events) <==>
      && Readable(h, events)
      && forall name :: Insists(h, ev, e, events, name) ==> Asks(Case(h, ev, e, b, q, events), name)
  {
    forall name
      ensures Asks(Case(h, ev, e, b, q, events), name) <==>
        && QuoteAsks(h, e, b, q, name) && LogAsks(h, q, events, name) && IdentityAsks(events, b, name)
        && MeasuredAsks(h, ev, e, events, name) && ManifestAsks(h, ev.appCompose, b, name)
        && PinAsks(e.policy, b, name) && PlatformAsks(e.policy, q, events, name) && ConnectionAsks(ev, e, b, name)
    {
      AsksWhatGroupsAsk(Case(h, ev, e, b, q, events), name);
    }
    ReadableMeans(h, events);
    QuoteMeans(h, ev, e, b, q, events);
    LogMeans(h, ev, e, q, events);
    if Readable(h, events) {
      IdentityMeans(h, ev, e, b, events);
      MeasuredMeans(h, ev, e, events);
      ManifestMeans(h, ev, e, b, events);
      PinsMean(h, ev, e, b, q, events);
      ConnectionMeans(h, ev, e, b, events);
    }
  }

  /**
   * A document is accepted exactly when it parses, its log can be read, and every check
   * the policy insists on finds what it asks: nothing is waived, and nothing else is asked.
   */
  lemma AcceptsExactly(h: Host, ev: Evidence, e: Expectations)
    ensures Accepts(h, ev, e) <==> Acceptable(h, ev, e)
  {
    var b, q, events := NormalizeBinding(h, ev.binding), h.quote(ev.quote), ParseEventLog(h, ev.eventLog);
    if b.Some? && q.Some? && events.Some? {
      AllOkExactly(h, ev, e, b.value, q.value, events.value);
    }
  }

  // ----- One quote, one story

  /** The RTMR3 entries of a document's log. */
  function Rtmr3(h: Host, ev: Evidence): (r: seq<Entry>) {
    var events := ParseEventLog(h, ev.eventLog);
    if events.Some? then OfRegister(events.value, 3) else []
  }

  /** The text hashed into `report_data`. */
  function BoundText(h: Host, ev: Evidence): (r: string) {
    var b := NormalizeBinding(h, ev.binding);
    if b.Some? && CanonicalJson(h, b.value).Some? then CanonicalJson(h, b.value).value else ""
  }

  function ManifestText(ev: Evidence): (r: string) {
    if ev.appCompose.JString? then ev.appCompose.s else ""
  }

  /** Nothing hashed while two documents are verified collides, and no SHA-384 digest on the way is the reset value. */
  ghost predicate NothingCollides(h: Host, x: Evidence, y: Evidence) {
    && Unambiguous(h, Hashed(h, Rtmr3(h, x)) + Hashed(h, Rtmr3(h, y)))
    && CollisionFree(h.sha512, {h.utf8(BoundText(h, x)), h.utf8(BoundText(h, y))})
    && CollisionFree(h.sha256, {h.utf8(ManifestText(x)), h.utf8(ManifestText(y))})
  }

  ghost predicate OnlyV1(h: Host, ev: Evidence) {
    forall entry :: entry in Rtmr3(h, ev) ==> IsV1(entry)
  }

  lemma SameBinding(h: Host, x: Evidence, y: Evidence, q: Quote)
    requires HostOk(h) && NothingCollides(h, x, y)
    requires NormalizeBinding(h, x.binding).Some? && QuoteOk(h, q, NormalizeBinding(h, x.binding).value)
    requires NormalizeBinding(h, y.binding).Some? && QuoteOk(h, q, NormalizeBinding(h, y.binding).value)
    ensures NormalizeBinding(h, x.binding) == NormalizeBinding(h, y.binding)
  {
    var a, b := NormalizeBinding(h, x.binding).value, NormalizeBinding(h, y.binding).value;
    HexEqualDetermines(q.reportData, BindingHash(h, a).value, BindingHash(h, b).value);
    SameHexSameBytes(h.sha512(h.utf8(BoundText(h, x))), h.sha512(h.utf8(BoundText(h, y))));
    assert h.utf8(BoundText(h, x)) == h.utf8(BoundText(h, y));
    CanonicalJsonDetermines(h, x.binding, y.binding);
  }

  lemma SameManifest(h: Host, x: Evidence, y: Evidence, compose: string)
    requires HostOk(h) && CollisionFree(h.sha256, {h.utf8(ManifestText(x)), h.utf8(ManifestText(y))})
    requires ReadAppCompose(h, x.appCompose).Some? && ReadAppCompose(h, y.appCompose).Some?
    requires HexEqual(ReadAppCompose(h, x.appCompose).value.composeHash, compose)
    requires HexEqual(ReadAppCompose(h, y.appCompose).value.composeHash, compose)
    ensures x.appCompose == y.appCompose
  {
    var a, b := ReadAppCompose(h, x.appCompose).value.composeHash, ReadAppCompose(h, y.appCompose).value.composeHash;
    LowerOfHex(a);
    LowerOfHex(b);
    SameHexSameBytes(h.sha256(h.utf8(ManifestText(x))), h.sha256(h.utf8(ManifestText(y))));
    assert h.utf8(ManifestText(x)) == h.utf8(ManifestText(y));
  }

  lemma ConsistentRegister(h: Host, events: seq<Entry>, own: seq<Entry>)
    requires AllConsistent(h, events) && own == OfRegister(events, 3)
    requires forall entry :: entry in own ==> IsV1(entry)
    ensures AllV1(h, own)
  {
    forall i | 0 <= i < |own|
      ensures Consistent(h, own[i])
    {
      assert own[i] in own;
    }
  }

  lemma SameEvents(h: Host, x: Evidence, y: Evidence, q: Quote)
    requires HostOk(h) && NothingCollides(h, x, y) && OnlyV1(h, x) && OnlyV1(h, y)
    requires ParseEventLog(h, x.eventLog).Some? && LogOk(h, ParseEventLog(h, x.eventLog).value, q)
    requires ParseEventLog(h, y.eventLog).Some? && LogOk(h, ParseEventLog(h, y.eventLog).value, q)
    ensures Show(Rtmr3(h, x)) == Show(Rtmr3(h, y))
  {
    var a, b := Rtmr3(h, x), Rtmr3(h, y);
    ConsistentRegister(h, ParseEventLog(h, x.eventLog).value, a);
    ConsistentRegister(h, ParseEventLog(h, y.eventLog).value, b);
    var r, s := Replay(h, MeasuredAll(h, a)), Replay(h, MeasuredAll(h, b));
    HexEqualDetermines(q.rtmr3, ToHex(r), ToHex(s));
    SameHexSameBytes(r, s);
    ReplayDetermines(h, a, b, Hashed(h, a) + Hashed(h, b));
  }

  datatype Document = Document(evidence: Evidence, expectations: Expectations)

  ghost predicate Accepted(h: Host, d: Document, q: Quote) {
    h.quote(d.evidence.quote) == Some(q) && Accepts(h, d.evidence, d.expectations)
  }

  /** Two documents say the same: binding, RTMR3 events and app-compose text. */
  ghost predicate SameStory(h: Host, x: Evidence, y: Evidence) {
    && NormalizeBinding(h, x.binding) == NormalizeBinding(h, y.binding)
    && Show(Rtmr3(h, x)) == Show(Rtmr3(h, y))
    && x.appCompose == y.appCompose
  }

  lemma TwoDocumentsAgree(h: Host, x: Document, y: Document, q: Quote)
    requires HostOk(h) && NothingCollides(h, x.evidence, y.evidence)
    requires OnlyV1(h, x.evidence) && OnlyV1(h, y.evidence)
    requires Accepted(h, x, q) && Accepted(h, y, q)
    ensures SameStory(h, x.evidence, y.evidence)
  {
    SameBinding(h, x.evidence, y.evidence, q);
    SameEvents(h, x.evidence, y.evidence, q);
    SameManifest(h, x.evidence, y.evidence, NormalizeBinding(h, x.evidence.binding).value.composeHash);
  }

  /**
   * All documents ever accepted for one quote, whatever the policies and expectations of those
   * who accepted them, have the same normalized binding, the same sequence of RTMR3 types, names
   * and payloads, and the same app-compose text.
   */
  lemma OneQuoteOneStory(h: Host, documents: seq<Document>, q: Quote)
    requires HostOk(h)
    requires forall i :: 0 <= i < |documents| ==> Accepted(h, documents[i], q) && OnlyV1(h, documents[i].evidence)
    requires forall i, j :: 0 <= i < |documents| && 0 <= j < |documents| ==>
                              NothingCollides(h, documents[i].evidence, documents[j].evidence)
    ensures forall i, j :: 0 <= i < |documents| && 0 <= j < |documents| ==>
                             SameStory(h, documents[i].evidence, documents[j].evidence)
  {
    forall i, j | 0 <= i < |documents| && 0 <= j < |documents|
      ensures SameStory(h, documents[i].evidence, documents[j].evidence)
    {
      TwoDocumentsAgree(h, documents[i], documents[j], q);
    }
  }

  /** What is measured agrees: some RTMR3 compose-hash event of an accepted log is the digest of the served manifest. */
  lemma ManifestIsMeasured(h: Host, ev: Evidence, e: Expectations)
    requires Accepts(h, ev, e)
    ensures exists entry :: entry in Rtmr3(h, ev) && entry.event == "compose-hash"
                         && HexEqual(entry.payload, ToHex(h.sha256(h.utf8(ManifestText(ev)))))
  {
    var events := ParseEventLog(h, ev.eventLog).value;
    var payload := Payload(h, events, "compose-hash").value;
    SameHash(payload, ReadAppCompose(h, ev.appCompose).value.composeHash,
             NormalizeBinding(h, ev.binding).value.composeHash);
    var i := PayloadIsInRtmr3(h, events, "compose-hash");
    assert events[i] in Rtmr3(h, ev) && events[i].payload == payload;
  }

  lemma SameHash(a: string, b: string, c: string)
    requires HexEqual(a, c) && HexEqual(b, c)
    ensures HexEqual(a, b)
  {
  }

  lemma PayloadIsInRtmr3(h: Host, events: seq<Entry>, name: string) returns (i: nat)
    requires Payload(h, events, name).Some?
    ensures i < |events| && events[i] in OfRegister(events, 3) && events[i].event == name
    ensures events[i].payload == Payload(h, events, name).value
  {
    i :| 0 <= i < |events| && events[i].event == name && events[i].imr == 3
         && events[i].payload == Payload(h, events, name).value;
    OfRegisterHasAll(events, 3, i);
  }

  lemma {:induction false} OfRegisterHasAll(events: seq<Entry>, imr: int, i: nat)
    requires i < |events| && events[i].imr == imr
    ensures events[i] in OfRegister(events, imr)
  {
    if i < |events| - 1 {
      OfRegisterHasAll(events[..|events| - 1], imr, i);
    }
  }
}
