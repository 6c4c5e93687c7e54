/**
 * What each check of an attestation document asks, and when a policy insists on it: said
 * of the document, the quote, the log and the policy themselves.
 */
module GatewayPolicy {
  import opened Wrappers
  import opened Json
  import opened Text
  import opened GatewayHost
  import opened GatewayBinding
  import opened GatewayEventLog
  import opened GatewayDocuments

  predicate Among(values: seq<string>, text: string) {
    exists i :: 0 <= i < |values| && HexEqual(values[i], text)
  }

  /** The payload of an event of the name. */
  ghost predicate Shows(events: seq<Entry>, name: string, payload: string) {
    exists i :: 0 <= i < |events| && events[i].event == name && events[i].payload == payload
  }

  /** At most one event of the name, and it is a consistent one of RTMR3. */
  ghost predicate Singular(h: Host, events: seq<Entry>, name: string) {
    NotNamed(events, name) || exists i :: NamedOnce(events, name, i) && events[i].imr == 3 && Consistent(h, events[i])
  }

  /** The log can be read: each event the verifier looks up is singular. */
  ghost predicate Readable(h: Host, events: seq<Entry>) {
    && Singular(h, events, "compose-hash") && Singular(h, events, "instance-id") && Singular(h, events, "app-id")
    && Singular(h, events, "key-provider") && Singular(h, events, "os-image-hash")
  }

  /** The text a key-provider event encodes, in lower case; empty without one. */
  ghost predicate Provider(h: Host, events: seq<Entry>, text: string) {
    if NotNamed(events, "key-provider") then text == ""
    else exists t :: Shows(events, "key-provider", t) && text == Lower(h.text(FromHex(t)))
  }

  ghost predicate RegisterIs(h: Host, events: seq<Entry>, imr: int, value: string) {
    HexEqual(ToHex(Replay(h, MeasuredAll(h, OfRegister(events, imr)))), value)
  }

  predicate Fresh(issuedAt: Json, now: real, maximum: real) {
    match issuedAt
    case JInt(n) => n as real - 60_000.0 <= now <= n as real + maximum
    case JFraction(x) => x - 60_000.0 <= now <= x + maximum
    case _ => false
  }

  // ----- What the checks ask, in the order they are made; a group asks nothing of the other checks

  /** The binding, the quote that commits to it, and freshness. */
  ghost predicate QuoteAsks(h: Host, e: Expectations, b: Binding, q: Quote, name: CheckName) {
    match name
    case QuoteIsTdx => q.teeType == 0x81
    case QuoteNotDebug => q.debugEnabled == false
    case BindingHashComputed => CanonicalJson(h, b).Some?
    case ReportDataBindsBinding =>
      CanonicalJson(h, b).Some? && HexEqual(q.reportData, ToHex(h.sha512(h.utf8(CanonicalJson(h, b).value))))
    case NonceMatchesRequest => Lower(e.nonce) == b.nonce
    case OriginMatchesConnection => CanonicalOrigin(h, e.origin) == Some(b.origin)
    case _ => true
  }

  /** The event log against the registers. */
  ghost predicate LogAsks(h: Host, q: Quote, events: seq<Entry>, name: CheckName) {
    match name
    case EventLogReplaysRtmrs =>
      && RegisterIs(h, events, 0, q.rtmr0) && RegisterIs(h, events, 1, q.rtmr1)
      && RegisterIs(h, events, 2, q.rtmr2) && RegisterIs(h, events, 3, q.rtmr3)
    case EventDigestsCommitToPayloads =>
      forall i :: 0 <= i < |events| && events[i].imr == 3 ==> Consistent(h, events[i])
    case _ => true
  }

  /** What the measured events say of the binding. */
  ghost predicate IdentityAsks(events: seq<Entry>, b: Binding, name: CheckName) {
    match name
    case ComposeHashMeasuredInRtmr3 => exists t :: Shows(events, "compose-hash", t) && HexEqual(t, b.composeHash)
    case InstanceIdMeasured => forall t :: Shows(events, "instance-id", t) ==> HexEqual(t, b.instanceId)
    case AppIdMeasured => exists t :: Shows(events, "app-id", t) && HexEqual(t, b.appId)
    case _ => true
  }

  /** What they say of the key provider and the OS image. */
  ghost predicate MeasuredAsks(h: Host, ev: Evidence, e: Expectations, events: seq<Entry>, name: CheckName) {
    match name
    case KeyProviderPinned =>
      e.policy.keyProviderId != "" && exists u, v :: Provider(h, events, u + Lower(e.policy.keyProviderId) + v)
    case VmConfigMatchesMeasuredOsImage =>
      && ReadOsImageHash(h, ev.vmConfig).Some?
      && exists t :: Shows(events, "os-image-hash", t) && HexEqual(t, ReadOsImageHash(h, ev.vmConfig).value)
    case _ => true
  }

  /** The served manifest. */
  ghost predicate ManifestAsks(h: Host, manifest: Json, b: Binding, name: CheckName) {
    var compose := ReadAppCompose(h, manifest);
    match name
    case AppComposeParsed => compose.Some?
    case AppComposeMatchesMeasurement =>
      compose.Some? && manifest.JString? && HexEqual(ToHex(h.sha256(h.utf8(manifest.s))), b.composeHash)
    case ComposePublicLogsDisabled => compose.Some? && compose.value.publicLogs == Some(false)
    case ComposeImagesDigestPinned =>
      && compose.Some? && compose.value.images != []
      && forall image :: image in compose.value.images ==> image.digestPinned
    case _ => true
  }

  /** The locally pinned identity. */
  predicate PinAsks(policy: Policy, b: Binding, name: CheckName) {
    match name
    case AppIdPinned => Among(policy.appIds, b.appId)
    case ComposeHashPinned => Among(policy.composeHashes, b.composeHash)
    case ReleasePinned => b.releaseId in policy.releaseIds
    case OriginPinned => b.origin in policy.origins
    case _ => true
  }

  /** The pinned platform. */
  ghost predicate PlatformAsks(policy: Policy, q: Quote, events: seq<Entry>, name: CheckName) {
    match name
    case PlatformMeasurementsPinned =>
      && policy.platform.Some?
      && var p := policy.platform.value;
         && Among(p.mrTd, q.mrTd) && Among(p.mrConfigId, q.mrConfigId)
         && Among(p.rtmr0, q.rtmr0) && Among(p.rtmr1, q.rtmr1) && Among(p.rtmr2, q.rtmr2)
    case OsImagePinned =>
      && policy.platform.Some?
      && exists t :: Shows(events, "os-image-hash", t) && Among(policy.platform.value.osImageHash, t)
    case _ => true
  }

  /** The connection, the age of the document and the chain of the quote. */
  predicate ConnectionAsks(ev: Evidence, e: Expectations, b: Binding, name: CheckName) {
    match name
    case TransportTerminatesInTee => b.transport == "in-tee-tls"
    case TlsCertificateBoundToQuote =>
      && e.observedTls.Some? && e.observedTls.value.Some? && b.tlsSpkiSha256.Some?
      && HexEqual(e.observedTls.value.value, b.tlsSpkiSha256.value)
    case EvidenceRecent => Fresh(ev.issuedAt, e.now, e.policy.maxEvidenceAge)
    case QuoteSignatureChain => e.chain.Some? && e.chain.value(ev.quote).verified
    case _ => true
  }

  /** A document and what is expected of it, with its binding, its quote and its log as they parse. */
  datatype Case = Case(h: Host, ev: Evidence, e: Expectations, b: Binding, q: Quote, events: seq<Entry>)

  /** A check asks what its group asks of it. */
  ghost predicate Asks(c: Case, name: CheckName) {
    if OfQuote(name) then QuoteAsks(c.h, c.e, c.b, c.q, name)
    else if OfLog(name) then LogAsks(c.h, c.q, c.events, name)
    else if OfIdentity(name) then IdentityAsks(c.events, c.b, name)
    else if OfMeasured(name) then MeasuredAsks(c.h, c.ev, c.e, c.events, name)
    else if OfManifest(name) then ManifestAsks(c.h, c.ev.appCompose, c.b, name)
    else if OfPin(name) then PinAsks(c.e.policy, c.b, name)
    else if OfPlatform(name) then PlatformAsks(c.e.policy, c.q, c.events, name)
    else if OfConnection(name) then ConnectionAsks(c.ev, c.e, c.b, name)
    else true
  }

  predicate OfQuote(name: CheckName) {
    name.QuoteIsTdx? || name.QuoteNotDebug? || name.BindingHashComputed? || name.ReportDataBindsBinding? ||
    name.NonceMatchesRequest? || name.OriginMatchesConnection?
  }

  predicate OfLog(name: CheckName) {
    name.EventLogReplaysRtmrs? || name.EventDigestsCommitToPayloads?
  }

  predicate OfIdentity(name: CheckName) {
    name.ComposeHashMeasuredInRtmr3? || name.InstanceIdMeasured? || name.AppIdMeasured?
  }

  predicate OfMeasured(name: CheckName) {
    name.KeyProviderPinned? || name.VmConfigMatchesMeasuredOsImage?
  }

  predicate OfManifest(name: CheckName) {
    name.AppComposeParsed? || name.AppComposeMatchesMeasurement? || name.ComposePublicLogsDisabled? ||
    name.ComposeImagesDigestPinned?
  }

  predicate OfPin(name: CheckName) {
    name.AppIdPinned? || name.ComposeHashPinned? || name.ReleasePinned? || name.OriginPinned?
  }

  predicate OfPlatform(name: CheckName) {
    name.PlatformMeasurementsPinned? || name.OsImagePinned?
  }

  predicate OfConnection(name: CheckName) {
    name.TransportTerminatesInTee? || name.TlsCertificateBoundToQuote? || name.EvidenceRecent? ||
    name.QuoteSignatureChain?
  }

  /** Whether the policy, or the document itself, makes the check one that must pass. */
  ghost predicate Insists(h: Host, ev: Evidence, e: Expectations, events: seq<Entry>, name: CheckName) {
    match name
    case KeyProviderPinned => e.policy.keyProviderId != ""
    case VmConfigMatchesMeasuredOsImage =>
      ReadOsImageHash(h, ev.vmConfig).Some? && exists t :: Shows(events, "os-image-hash", t)
    case ComposePublicLogsDisabled => e.policy.requirePrivateLogs
    case ComposeImagesDigestPinned => e.policy.requireDigestPinnedImages
    case PlatformMeasurementsPinned => e.policy.platform.Some?
    case OsImagePinned => e.policy.platform.Some?
    case TransportTerminatesInTee => e.policy.requireInTeeTls
    case TlsCertificateBoundToQuote => e.policy.requireInTeeTls && e.observedTls.Some?
    case EvidenceRecent => false
    case QuoteSignatureChain => e.chain.Some? || e.policy.requireHardwareVerified
    case _ => true
  }

  /** A check reports what it asks, and is required when it is insisted on. */
  ghost predicate Says(c: Case, check: Check) {
    && (check.passed <==> Asks(c, check.name))
    && (check.required <==> Insisted(c, check.name))
  }

  ghost predicate Insisted(c: Case, name: CheckName) {
    Insists(c.h, c.ev, c.e, c.events, name)
  }

  ghost predicate AllSay(c: Case, checks: seq<Check>) {
    forall i :: 0 <= i < |checks| ==> Says(c, checks[i])
  }

  /** An accepted document parses, its log can be read, and every check insisted on finds what it asks. */
  ghost predicate Acceptable(h: Host, ev: Evidence, e: Expectations) {
    var b, q, events := NormalizeBinding(h, ev.binding), h.quote(ev.quote), ParseEventLog(h, ev.eventLog);
    && b.Some? && q.Some? && events.Some? && Readable(h, events.value)
    && forall name ::
         Insists(h, ev, e, events.value, name) ==> Asks(Case(h, ev, e, b.value, q.value, events.value), name)
  }
}
