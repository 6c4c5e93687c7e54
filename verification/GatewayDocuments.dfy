/** The attestation document of a gateway, what a client expects of it, and the verdict (src/gateway/verify.ts). */
module GatewayDocuments {
  import opened Wrappers
  import opened Json
  import opened Text
  import opened GatewayHost
  import opened GatewayBinding

  const MAX_VM_CONFIG_CHARS: nat := 65_536
  const MAX_MANIFEST_BYTES: nat := 1_000_000

  /** A field the document lacks is `JNull`: every reader treats the two alike. */
  datatype Evidence = Evidence(
    binding: Json, quote: string, eventLog: Json, appCompose: Json, issuedAt: Json, vmConfig: Json)

  datatype Platform = Platform(
    mrTd: seq<string>, mrConfigId: seq<string>, rtmr0: seq<string>, rtmr1: seq<string>, rtmr2: seq<string>,
    osImageHash: seq<string>)

  datatype Policy = Policy(
    origins: seq<string>, appIds: seq<string>, composeHashes: seq<string>, releaseIds: seq<string>,
    keyProviderId: string, platform: Option<Platform>, requireInTeeTls: bool, requirePrivateLogs: bool,
    requireDigestPinnedImages: bool, requireHardwareVerified: bool, maxEvidenceAge: real)

  datatype ChainOutcome = ChainOutcome(verified: bool, tcbStatus: Option<string>)

  /** `observedTls` tells "not observed" (`None`) from "observed, and there is none" (`Some(None)`). */
  datatype Expectations = Expectations(
    nonce: string, origin: string, policy: Policy, now: real, observedTls: Option<Option<string>>,
    chain: Option<string -> ChainOutcome>)

  datatype AppCompose = AppCompose(composeHash: string, publicLogs: Option<bool>, images: seq<Image>)

  /** The checks, by the names they are reported under. */
  datatype CheckName =
    | BindingWellformed | QuoteParsed | QuoteIsTdx | QuoteNotDebug | BindingHashComputed | ReportDataBindsBinding
    | NonceMatchesRequest | OriginMatchesConnection | EventLogReplaysRtmrs | EventDigestsCommitToPayloads
    | ComposeHashMeasuredInRtmr3 | InstanceIdMeasured | AppIdMeasured | KeyProviderPinned
    | VmConfigMatchesMeasuredOsImage | AppComposeParsed | AppComposeMatchesMeasurement | ComposePublicLogsDisabled
    | ComposeImagesDigestPinned | AppIdPinned | ComposeHashPinned | ReleasePinned | OriginPinned
    | PlatformMeasurementsPinned | OsImagePinned | TransportTerminatesInTee | TlsCertificateBoundToQuote
    | EvidenceRecent | QuoteSignatureChain

  datatype Check = Check(name: CheckName, passed: bool, required: bool)

  datatype Level = Unverified | ProviderAttested | HardwareVerified

  datatype Verdict = Verdict(
    ok: bool, level: Level, checks: seq<Check>, reason: Option<CheckName>, binding: Option<Binding>,
    appCompose: Option<AppCompose>, tcbStatus: Option<string>)

  // ----- Readers

  function OptionalBoolean(field: Option<Json>): Option<bool> {
    if field.Some? && field.value.JBool? then Some(field.value.b) else None
  }

  /** `readAttestedAppCompose`. */
  function ReadAppCompose(h: Host, manifest: Json): (r: Option<AppCompose>)
    ensures r.Some? ==> manifest.JString? && r.value.composeHash == ToHex(h.sha256(h.utf8(manifest.s)))
  {
    if !manifest.JString? || manifest.s == "" || |h.utf8(manifest.s)| > MAX_MANIFEST_BYTES then None
    else
      var parsed := h.json(manifest.s);
      if parsed.None? || !parsed.value.JObject? then None
      else
        var docker := Member(parsed.value.fields, "docker_compose_file");
        Some(AppCompose(
          ToHex(h.sha256(h.utf8(manifest.s))),
          OptionalBoolean(Member(parsed.value.fields, "public_logs")),
          if docker.Some? && docker.value.JString? && docker.value.s != "" then h.images(docker.value.s) else []))
  }

  /** `readVmConfigOsImageHash`. */
  function ReadOsImageHash(h: Host, raw: Json): (r: Option<string>)
    ensures r.Some? ==> |r.value| == 64 && IsHex(r.value)
  {
    if !raw.JString? || raw.s == "" || |raw.s| > MAX_VM_CONFIG_CHARS then None
    else
      var parsed := h.json(raw.s);
      if parsed.None? || !parsed.value.JObject? then None
      else
        var value := Member(parsed.value.fields, "os_image_hash");
        if value.None? || !value.value.JString? then None
        else
          var normal := Strip0x(Lower(Trim(value.value.s)));
          if |normal| == 64 && IsHex(normal) then Some(normal) else None
  }

  // ----- What is read

  /** White space around a text that spells the digits. */
  ghost predicate SpellsInside(text: string, digits: string) {
    exists a, t, b :: AllSpace(a) && AllSpace(b) && text == a + t + b && Spells(t, digits)
  }

  lemma SpelledIsBare(t: string, digits: string)
    requires digits != "" && IsHex(digits) && Spells(t, digits)
    ensures Bare(t)
  {
    var n := |t| - 1;
    assert LowerChar(t[0]) == Lower(t)[0] && LowerChar(t[n]) == Lower(t)[n];
  }

  lemma TrimSpells(text: string, digits: string)
    requires digits != "" && IsHex(digits)
    ensures Strip0x(Lower(Trim(text))) == digits <==> SpellsInside(text, digits)
  {
    if a, t, b :| AllSpace(a) && AllSpace(b) && text == a + t + b && Spells(t, digits) {
      SpelledIsBare(t, digits);
      TrimRemoves(a, t, b);
      SpellsStrips(t, digits);
    }
    if Strip0x(Lower(Trim(text))) == digits {
      var a := TrimStartSplits(text);
      var b := TrimEndSplits(TrimStart(text));
      StripSpells(Trim(text));
      Joined(a, Trim(text), b);
      assert text == a + Trim(text) + b;
    }
  }

  /** The image hash of a VM configuration: 64 hex digits in its `os_image_hash`, however they are written. */
  lemma OsImageHashMeans(h: Host, text: string, digits: string)
    requires IsHex(digits) && |digits| == 64
    ensures ReadOsImageHash(h, JString(text)) == Some(digits) <==>
      && 0 < |text| <= 65_536 && h.json(text).Some? && h.json(text).value.JObject?
      && var f := h.json(text).value.fields;
         "os_image_hash" in f && f["os_image_hash"].JString? && SpellsInside(f["os_image_hash"].s, digits)
  {
    if h.json(text).Some? && h.json(text).value.JObject? {
      var f := h.json(text).value.fields;
      if "os_image_hash" in f && f["os_image_hash"].JString? {
        TrimSpells(f["os_image_hash"].s, digits);
      }
    }
  }

  /** Which manifests are read, and what is read of them. */
  lemma AppComposeMeans(h: Host, text: string)
    ensures ReadAppCompose(h, JString(text)).Some? <==>
      0 < |text| && |h.utf8(text)| <= 1_000_000 && h.json(text).Some? && h.json(text).value.JObject?
    ensures ReadAppCompose(h, JString(text)).Some? ==>
      var f, read := h.json(text).value.fields, ReadAppCompose(h, JString(text)).value;
      && read.composeHash == ToHex(h.sha256(h.utf8(text)))
      && read.publicLogs == (if "public_logs" in f && f["public_logs"].JBool? then Some(f["public_logs"].b) else None)
      && read.images == (if "docker_compose_file" in f && f["docker_compose_file"].JString?
                            && f["docker_compose_file"].s != "" then h.images(f["docker_compose_file"].s) else [])
  {
  }
}
