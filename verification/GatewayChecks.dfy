/** Every check in a verdict reports what its name asks (src/gateway/verify.ts). */
module GatewayChecks {
  import opened Wrappers
  import opened Json
  import opened Text
  import opened GatewayHost
  import opened GatewayBinding
  import opened GatewayEventLog
  import opened GatewayDocuments
  import opened GatewayPolicy
  import opened GatewayVerify

  // ----- Every check says what it asks

  lemma PushSays(c: Case, before: seq<Check>, name: CheckName, passed: bool, required: bool)
    requires AllSay(c, before) && Says(c, Check(name, passed, required))
    ensures AllSay(c, Push(before, name, passed, required))
  {
  }

  lemma AskedOfQuote(c: Case, name: CheckName)
    requires OfQuote(name)
    ensures Asks(c, name) == QuoteAsks(c.h, c.e, c.b, c.q, name)
  {
  }

  lemma AskedOfLog(c: Case, name: CheckName)
    requires OfLog(name)
    ensures Asks(c, name) == LogAsks(c.h, c.q, c.events, name)
  {
    assert !OfQuote(name);
  }

  lemma AskedOfIdentity(c: Case, name: CheckName)
    requires OfIdentity(name)
    ensures Asks(c, name) == IdentityAsks(c.events, c.b, name)
  {
    assert !OfQuote(name) && !OfLog(name);
  }

  lemma AskedOfMeasured(c: Case, name: CheckName)
    requires OfMeasured(name)
    ensures Asks(c, name) == MeasuredAsks(c.h, c.ev, c.e, c.events, name)
  {
    assert !OfQuote(name) && !OfLog(name) && !OfIdentity(name);
  }

  lemma AskedOfManifest(c: Case, name: CheckName)
    requires OfManifest(name)
    ensures Asks(c, name) == ManifestAsks(c.h, c.ev.appCompose, c.b, name)
  {
    assert !OfQuote(name) && !OfLog(name) && !OfIdentity(name) && !OfMeasured(name);
  }

  lemma AskedOfPin(c: Case, name: CheckName)
    requires OfPin(name)
    ensures Asks(c, name) == PinAsks(c.e.policy, c.b, name)
  {
    assert !OfQuote(name) && !OfLog(name) && !OfIdentity(name) && !OfMeasured(name) && !OfManifest(name);
  }

  lemma AskedOfPlatform(c: Case, name: CheckName)
    requires OfPlatform(name)
    ensures Asks(c, name) == PlatformAsks(c.e.policy, c.q, c.events, name)
  {
    assert !OfQuote(name) && !OfLog(name) && !OfIdentity(name) && !OfMeasured(name);
    assert !OfManifest(name) && !OfPin(name);
  }

  lemma AskedOfConnection(c: Case, name: CheckName)
    requires OfConnection(name)
    ensures Asks(c, name) == ConnectionAsks(c.ev, c.e, c.b, name)
  {
    assert !OfQuote(name) && !OfLog(name) && !OfIdentity(name) && !OfMeasured(name);
    assert !OfManifest(name) && !OfPin(name) && !OfPlatform(name);
  }

  lemma QuoteSays(c: Case, before: seq<Check>, name: CheckName, passed: bool, required: bool)
    requires AllSay(c, before)
    requires OfQuote(name)
    requires passed == QuoteAsks(c.h, c.e, c.b, c.q, name) && required == Insisted(c, name)
    ensures AllSay(c, Push(before, name, passed, required))
  {
    AskedOfQuote(c, name);
    PushSays(c, before, name, passed, required);
  }

  lemma LogSays(c: Case, before: seq<Check>, name: CheckName, passed: bool, required: bool)
    requires AllSay(c, before)
    requires OfLog(name)
    requires passed == LogAsks(c.h, c.q, c.events, name) && required == Insisted(c, name)
    ensures AllSay(c, Push(before, name, passed, required))
  {
    AskedOfLog(c, name);
    PushSays(c, before, name, passed, required);
  }

  lemma IdentitySays(c: Case, before: seq<Check>, name: CheckName, passed: bool, required: bool)
    requires AllSay(c, before)
    requires OfIdentity(name)
    requires passed == IdentityAsks(c.events, c.b, name) && required == Insisted(c, name)
    ensures AllSay(c, Push(before, name, passed, required))
  {
    AskedOfIdentity(c, name);
    PushSays(c, before, name, passed, required);
  }

  lemma MeasuredSays(c: Case, before: seq<Check>, name: CheckName, passed: bool, required: bool)
    requires AllSay(c, before)
    requires OfMeasured(name)
    requires passed == MeasuredAsks(c.h, c.ev, c.e, c.events, name) && required == Insisted(c, name)
    ensures AllSay(c, Push(before, name, passed, required))
  {
    AskedOfMeasured(c, name);
    PushSays(c, before, name, passed, required);
  }

  lemma ManifestSays(c: Case, before: seq<Check>, name: CheckName, passed: bool, required: bool)
    requires AllSay(c, before)
    requires OfManifest(name)
    requires passed == ManifestAsks(c.h, c.ev.appCompose, c.b, name) && required == Insisted(c, name)
    ensures AllSay(c, Push(before, name, passed, required))
  {
    AskedOfManifest(c, name);
    PushSays(c, before, name, passed, required);
  }

  lemma PinSays(c: Case, before: seq<Check>, name: CheckName, passed: bool, required: bool)
    requires AllSay(c, before)
    requires OfPin(name)
    requires passed == PinAsks(c.e.policy, c.b, name) && required == Insisted(c, name)
    ensures AllSay(c, Push(before, name, passed, required))
  {
    AskedOfPin(c, name);
    PushSays(c, before, name, passed, required);
  }

  lemma PlatformSays(c: Case, before: seq<Check>, name: CheckName, passed: bool, required: bool)
    requires AllSay(c, before)
    requires OfPlatform(name)
    requires passed == PlatformAsks(c.e.policy, c.q, c.events, name) && required == Insisted(c, name)
    ensures AllSay(c, Push(before, name, passed, required))
  {
    AskedOfPlatform(c, name);
    PushSays(c, before, name, passed, required);
  }

  lemma ConnectionSays(c: Case, before: seq<Check>, name: CheckName, passed: bool, required: bool)
    requires AllSay(c, before)
    requires OfConnection(name)
    requires passed == ConnectionAsks(c.ev, c.e, c.b, name) && required == Insisted(c, name)
    ensures AllSay(c, Push(before, name, passed, required))
  {
    AskedOfConnection(c, name);
    PushSays(c, before, name, passed, required);
  }

  lemma ParsedSay(c: Case)
    ensures AllSay(c, ParsedChecks(c.q))
  {
    var start := Push(Push([], BindingWellformed, true, true), QuoteParsed, true, true);
    PushSays(c, [], BindingWellformed, true, true);
    PushSays(c, Push([], BindingWellformed, true, true), QuoteParsed, true, true);
    QuoteSays(c, start, QuoteIsTdx, c.q.teeType == TEE_TYPE_TDX, true);
    var tdx := Push(start, QuoteIsTdx, c.q.teeType == TEE_TYPE_TDX, true);
    QuoteSays(c, tdx, QuoteNotDebug, !c.q.debugEnabled, true);
  }

  lemma ReportSays(c: Case, before: seq<Check>, hash: string)
    requires BindingHash(c.h, c.b) == Some(hash) && AllSay(c, before)
    ensures AllSay(c, Push(before, ReportDataBindsBinding, HexEqual(c.q.reportData, hash), true))
  {
    QuoteSays(c, before, ReportDataBindsBinding, HexEqual(c.q.reportData, hash), true);
  }

  lemma NonceSays(c: Case, before: seq<Check>)
    requires AllSay(c, before)
    ensures AllSay(c, Push(before, NonceMatchesRequest, c.b.nonce == Lower(c.e.nonce), true))
  {
    QuoteSays(c, before, NonceMatchesRequest, c.b.nonce == Lower(c.e.nonce), true);
  }

  lemma OriginSays(c: Case, before: seq<Check>)
    requires AllSay(c, before)
    ensures var origin := CanonicalOrigin(c.h, c.e.origin);
      AllSay(c, Push(before, OriginMatchesConnection, origin.Some? && c.b.origin == origin.value, true))
  {
    var origin := CanonicalOrigin(c.h, c.e.origin);
    QuoteSays(c, before, OriginMatchesConnection, origin.Some? && c.b.origin == origin.value, true);
  }

  lemma CommitmentSays(c: Case, before: seq<Check>)
    requires BindingHash(c.h, c.b).Some? && AllSay(c, before)
    ensures AllSay(c, CommitmentChecks(before, c.h, c.e, c.b, c.q))
  {
    var hash := BindingHash(c.h, c.b).value;
    var bound := Push(before, ReportDataBindsBinding, HexEqual(c.q.reportData, hash), true);
    ReportSays(c, before, hash);
    NonceSays(c, bound);
    OriginSays(c, Push(bound, NonceMatchesRequest, c.b.nonce == Lower(c.e.nonce), true));
  }

  lemma LogChecksSay(c: Case, before: seq<Check>)
    requires ParseEventLog(c.h, c.ev.eventLog) == Some(c.events) && LogReadable(c.h, c.events) && AllSay(c, before)
    ensures AllSay(c, LogChecks(before, c.h, c.ev.eventLog, c.q))
  {
    var replayed := Push(before, EventLogReplaysRtmrs, Replays(c.h, c.events, c.q), true);
    LogAsked(c.h, c.q, c.events);
    LogSays(c, before, EventLogReplaysRtmrs, Replays(c.h, c.events, c.q), true);
    LogSays(c, replayed, EventDigestsCommitToPayloads, AllConsistent(c.h, c.events), true);
  }

  lemma FactChecksSay(c: Case, before: seq<Check>)
    requires LogReadable(c.h, c.events) && AllSay(c, before)
    ensures AllSay(c, FactChecks(before, c.h, FactsOf(c.h, c.events), c.b, c.e.policy, c.ev.vmConfig))
  {
    var facts := FactsOf(c.h, c.events);
    var instance := facts.instanceId.None? || HexIs(facts.instanceId, c.b.instanceId);
    var one := Push(before, ComposeHashMeasuredInRtmr3, HexIs(facts.composeHash, c.b.composeHash), true);
    var two := Push(one, InstanceIdMeasured, instance, true);
    var three := Push(two, AppIdMeasured, HexIs(facts.appId, c.b.appId), true);
    IdentityIsShown(c.h, c.b, c.events);
    IdentitySays(c, before, ComposeHashMeasuredInRtmr3, HexIs(facts.composeHash, c.b.composeHash), true);
    IdentitySays(c, one, InstanceIdMeasured, instance, true);
    IdentitySays(c, two, AppIdMeasured, HexIs(facts.appId, c.b.appId), true);
    MeasuredChecksSay(c, three);
  }

  lemma MeasuredChecksSay(c: Case, before: seq<Check>)
    requires LogReadable(c.h, c.events) && AllSay(c, before)
    ensures var facts, id := FactsOf(c.h, c.events), c.e.policy.keyProviderId;
      var image := ReadOsImageHash(c.h, c.ev.vmConfig);
      var pinned := id != "" && Contains(ProviderText(c.h, facts), Lower(id));
      var anchored := facts.osImageHash.Some? && image.Some?;
      AllSay(c, Push(
        Push(before, KeyProviderPinned, pinned, id != ""), VmConfigMatchesMeasuredOsImage,
        anchored && HexIs(facts.osImageHash, image.value), anchored))
  {
    var facts, id := FactsOf(c.h, c.events), c.e.policy.keyProviderId;
    ProviderSays(c, before);
    var pinned := id != "" && Contains(ProviderText(c.h, facts), Lower(id));
    VmConfigSays(c, Push(before, KeyProviderPinned, pinned, id != ""));
  }

  lemma ProviderSays(c: Case, before: seq<Check>)
    requires LogReadable(c.h, c.events) && AllSay(c, before)
    ensures var id := c.e.policy.keyProviderId;
      var pinned := id != "" && Contains(ProviderText(c.h, FactsOf(c.h, c.events)), Lower(id));
      AllSay(c, Push(before, KeyProviderPinned, pinned, id != ""))
  {
    var id := c.e.policy.keyProviderId;
    var pinned := id != "" && Contains(ProviderText(c.h, FactsOf(c.h, c.events)), Lower(id));
    ProviderMeans(c.h, c.e, c.events);
    MeasuredSays(c, before, KeyProviderPinned, pinned, id != "");
  }

  lemma VmConfigSays(c: Case, before: seq<Check>)
    requires LogReadable(c.h, c.events) && AllSay(c, before)
    ensures var shown, image := FactsOf(c.h, c.events).osImageHash, ReadOsImageHash(c.h, c.ev.vmConfig);
      var anchored := shown.Some? && image.Some?;
      AllSay(c, Push(before, VmConfigMatchesMeasuredOsImage, anchored && HexIs(shown, image.value), anchored))
  {
    var shown, image := FactsOf(c.h, c.events).osImageHash, ReadOsImageHash(c.h, c.ev.vmConfig);
    var anchored := shown.Some? && image.Some?;
    VmConfigMeans(c.h, c.ev, c.events);
    MeasuredSays(c, before, VmConfigMatchesMeasuredOsImage, anchored && HexIs(shown, image.value), anchored);
  }

  lemma ManifestChecksSay(c: Case, before: seq<Check>)
    requires AllSay(c, before)
    ensures AllSay(c, ManifestChecks(before, c.h, c.ev.appCompose, c.b, c.e.policy))
  {
    var compose := ReadAppCompose(c.h, c.ev.appCompose);
    var matches := compose.Some? && HexEqual(compose.value.composeHash, c.b.composeHash);
    var private := compose.Some? && compose.value.publicLogs == Some(false);
    var parsed := Push(before, AppComposeParsed, compose.Some?, true);
    var matched := Push(parsed, AppComposeMatchesMeasurement, matches, true);
    ManifestSays(c, before, AppComposeParsed, compose.Some?, true);
    ManifestSays(c, parsed, AppComposeMatchesMeasurement, matches, true);
    if c.e.policy.requirePrivateLogs {
      ManifestSays(c, matched, ComposePublicLogsDisabled, private, true);
    }
    if c.e.policy.requireDigestPinnedImages {
      var logs := if !c.e.policy.requirePrivateLogs then matched
                  else Push(matched, ComposePublicLogsDisabled, private, true);
      ImagesPinnedMeans(c.h, c.ev.appCompose, c.b);
      ManifestSays(c, logs, ComposeImagesDigestPinned, ImagesPinned(compose), true);
    }
  }

  lemma AppIdSays(c: Case, before: seq<Check>)
    requires AllSay(c, before)
    ensures AllSay(c, Push(before, AppIdPinned, Among(c.e.policy.appIds, c.b.appId), true))
  {
    PinSays(c, before, AppIdPinned, Among(c.e.policy.appIds, c.b.appId), true);
  }

  lemma ComposeHashSays(c: Case, before: seq<Check>)
    requires AllSay(c, before)
    ensures AllSay(c, Push(before, ComposeHashPinned, Among(c.e.policy.composeHashes, c.b.composeHash), true))
  {
    PinSays(c, before, ComposeHashPinned, Among(c.e.policy.composeHashes, c.b.composeHash), true);
  }

  lemma ReleaseAndOriginSay(c: Case, before: seq<Check>)
    requires AllSay(c, before)
    ensures var release := Push(before, ReleasePinned, c.b.releaseId in c.e.policy.releaseIds, true);
      AllSay(c, Push(release, OriginPinned, c.b.origin in c.e.policy.origins, true))
  {
    var release := Push(before, ReleasePinned, c.b.releaseId in c.e.policy.releaseIds, true);
    PinSays(c, before, ReleasePinned, c.b.releaseId in c.e.policy.releaseIds, true);
    PinSays(c, release, OriginPinned, c.b.origin in c.e.policy.origins, true);
  }

  lemma PinChecksSay(c: Case, before: seq<Check>)
    requires LogReadable(c.h, c.events) && AllSay(c, before)
    ensures AllSay(c, PinChecks(before, c.b, c.q, FactsOf(c.h, c.events), c.e.policy))
  {
    var policy := c.e.policy;
    var app := Push(before, AppIdPinned, Among(policy.appIds, c.b.appId), true);
    var compose := Push(app, ComposeHashPinned, Among(policy.composeHashes, c.b.composeHash), true);
    var release := Push(compose, ReleasePinned, c.b.releaseId in policy.releaseIds, true);
    AppIdSays(c, before);
    ComposeHashSays(c, app);
    ReleaseAndOriginSay(c, compose);
    if policy.platform.Some? {
      PlatformChecksSay(c, Push(release, OriginPinned, c.b.origin in policy.origins, true));
    }
  }

  lemma PlatformChecksSay(c: Case, before: seq<Check>)
    requires LogReadable(c.h, c.events) && AllSay(c, before) && c.e.policy.platform.Some?
    ensures var p, facts := c.e.policy.platform.value, FactsOf(c.h, c.events);
      AllSay(c, Push(
        Push(before, PlatformMeasurementsPinned, RegistersPinned(p, c.q), true), OsImagePinned,
        facts.osImageHash.Some? && Among(p.osImageHash, facts.osImageHash.value), true))
  {
    RegistersSay(c, before);
    OsImageSays(c, Push(before, PlatformMeasurementsPinned, RegistersPinned(c.e.policy.platform.value, c.q), true));
  }

  lemma RegistersSay(c: Case, before: seq<Check>)
    requires AllSay(c, before) && c.e.policy.platform.Some?
    ensures AllSay(c, Push(before, PlatformMeasurementsPinned, RegistersPinned(c.e.policy.platform.value, c.q), true))
  {
    RegistersMean(c.e.policy, c.q, c.events);
    PlatformSays(c, before, PlatformMeasurementsPinned, RegistersPinned(c.e.policy.platform.value, c.q), true);
  }

  lemma OsImageSays(c: Case, before: seq<Check>)
    requires LogReadable(c.h, c.events) && AllSay(c, before) && c.e.policy.platform.Some?
    ensures var p, shown := c.e.policy.platform.value, FactsOf(c.h, c.events).osImageHash;
      AllSay(c, Push(before, OsImagePinned, shown.Some? && Among(p.osImageHash, shown.value), true))
  {
    var p, shown := c.e.policy.platform.value, FactsOf(c.h, c.events).osImageHash;
    OsImageAsked(c.h, c.e.policy, c.q, c.events);
    PlatformSays(c, before, OsImagePinned, shown.Some? && Among(p.osImageHash, shown.value), true);
  }

  lemma TransportSays(c: Case, before: seq<Check>)
    requires AllSay(c, before)
    ensures var must := c.e.policy.requireInTeeTls;
      var transport := Push(before, TransportTerminatesInTee, c.b.transport == "in-tee-tls", must);
      && AllSay(c, transport)
      && (must ==> AllSay(c, Push(transport, TlsCertificateBoundToQuote, CertificateBound(c.b, c.e),
                                  c.e.observedTls.Some?)))
  {
    var must := c.e.policy.requireInTeeTls;
    var transport := Push(before, TransportTerminatesInTee, c.b.transport == "in-tee-tls", must);
    ConnectionSays(c, before, TransportTerminatesInTee, c.b.transport == "in-tee-tls", must);
    if must {
      ConnectionSays(c, transport, TlsCertificateBoundToQuote, CertificateBound(c.b, c.e), c.e.observedTls.Some?);
    }
  }

  lemma AgeAndChainSay(c: Case, before: seq<Check>)
    requires AllSay(c, before)
    ensures var recent := Recent(c.ev.issuedAt, c.e.now, c.e.policy.maxEvidenceAge);
      AllSay(c, Push(Push(before, EvidenceRecent, recent, false), QuoteSignatureChain,
                     ChainVerified(c.ev.quote, c.e), c.e.chain.Some? || c.e.policy.requireHardwareVerified))
  {
    var recent := Recent(c.ev.issuedAt, c.e.now, c.e.policy.maxEvidenceAge);
    ConnectionSays(c, before, EvidenceRecent, recent, false);
    ConnectionSays(c, Push(before, EvidenceRecent, recent, false), QuoteSignatureChain,
                   ChainVerified(c.ev.quote, c.e), c.e.chain.Some? || c.e.policy.requireHardwareVerified);
  }

  lemma ConnectionChecksSay(c: Case, before: seq<Check>)
    requires AllSay(c, before)
    ensures AllSay(c, ConnectionChecks(before, c.ev, c.e, c.b))
  {
    var must := c.e.policy.requireInTeeTls;
    var transport := Push(before, TransportTerminatesInTee, c.b.transport == "in-tee-tls", must);
    TransportSays(c, before);
    AgeAndChainSay(c, if !must then transport
                      else Push(transport, TlsCertificateBoundToQuote, CertificateBound(c.b, c.e),
                                c.e.observedTls.Some?));
  }

  /** In the verdict on a document that can be read, every check reports what it asks and is required as insisted. */
  lemma EveryCheckSays(c: Case)
    requires ParseEventLog(c.h, c.ev.eventLog) == Some(c.events) && Readable(c.h, c.events)
    requires BindingHash(c.h, c.b).Some?
    ensures AllSay(c, AllChecks(c.h, c.ev, c.e, c.b, c.q))
  {
    ReadableMeans(c.h, c.events);
    var quote, facts := QuoteChecks(c.h, c.e, c.b, c.q), FactsOf(c.h, c.events);
    var log := LogChecks(quote, c.h, c.ev.eventLog, c.q);
    var measured := FactChecks(log, c.h, facts, c.b, c.e.policy, c.ev.vmConfig);
    var manifest := ManifestChecks(measured, c.h, c.ev.appCompose, c.b, c.e.policy);
    ParsedSay(c);
    CommitmentSays(c, ParsedChecks(c.q));
    LogChecksSay(c, quote);
    FactChecksSay(c, log);
    ManifestChecksSay(c, measured);
    PinChecksSay(c, manifest);
    ConnectionChecksSay(c, PinChecks(manifest, c.b, c.q, facts, c.e.policy));
  }
}
