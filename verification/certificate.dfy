/** SSL certificates of the Tencent Cloud provider: the upload and delete
    checks, the SHA-1 fingerprint text, the lazily loaded certificate
    details, the paged certificate listing, and the subject alternative
    names. Every SSL API reply is handed in by the caller; SHA-1 is a
    parameter. */
module Certificate {
  import opened Wrappers
  import opened Text

  // ------------------------------------------------------- upload, delete

  /** `CreateCertificate`: a server certificate needs its private key,
      and that is checked before anything is sent. Returns the result and
      the parameters of the upload call, if one was made. `reply` is the
      upload call's answer: an error, or the `CertificateId` it carries
      (`None` when it has none). */
  function CreateCertificate(projectId: string, publicKey: string, privateKey: string, certType: string,
                             desc: string, reply: Result<Option<string>, string>)
    : (r: (Result<string, string>, Option<map<string, string>>))
    ensures r.1.None? <==> privateKey == "" && certType == "SVR"
    ensures r.1.None? ==> r.0.Err?
    ensures r.1.Some? ==>
              var p := r.1.value;
              "CertificatePublicKey" in p && "CertificateType" in p && "Alias" in p
              && p["CertificatePublicKey"] == publicKey && p["CertificateType"] == certType && p["Alias"] == desc
              && ("CertificatePrivateKey" in p <==> privateKey != "")
              && ("CertificatePrivateKey" in p ==> p["CertificatePrivateKey"] == privateKey)
              && ("ProjectId" in p <==> projectId != "")
              && ("ProjectId" in p ==> p["ProjectId"] == projectId)
              && p.Keys <= {"CertificatePublicKey", "CertificateType", "Alias", "CertificatePrivateKey", "ProjectId"}
    ensures r.1.Some? ==> (r.0.Ok? <==> reply.Ok? && reply.value.Some?)
    ensures r.0.Ok? ==> r.0.value == reply.value.value
  {
    var base := map["CertificatePublicKey" := publicKey, "CertificateType" := certType, "Alias" := desc];
    if |privateKey| == 0 && certType == "SVR" then
      (Err("certificate private key required while certificate type is SVR"), None)
    else
      var withKey := if |privateKey| > 0 then base["CertificatePrivateKey" := privateKey] else base;
      var params := if |projectId| > 0 then withKey["ProjectId" := projectId] else withKey;
      match reply
      case Err(e) => (Err(e), Some(params))
      case Ok(None) => (Err("CertificateId not found"), Some(params))
      case Ok(Some(id)) => (Ok(id), Some(params))
  }

  /** `DeleteCertificate`: an empty id is refused without a call; otherwise
      the call must answer `DeleteResult: true`. `reply` is the call's
      answer: an error, or the `DeleteResult` it carries (`None` when it
      has none). Returns the outcome and whether the call was made. */
  function DeleteCertificate(id: string, reply: Result<Option<bool>, string>): (r: (Outcome<string>, bool))
    ensures r.1 <==> id != ""
    ensures r.0.Pass? <==> id != "" && reply == Ok(Some(true))
  {
    if |id| == 0 then (Fail("DelteCertificate certificate id should not be empty"), false)
    else match reply
      case Err(e) => (Fail("DeleteCertificate: " + e), true)
      case Ok(Some(true)) => (Pass, true)
      case Ok(_) => (Fail("DeleteCertificate"), true)
  }

  // ---------------------------------------------------------- fingerprint

  type Digest = d: seq<byte> | |d| == 20 witness seq(20, i => 0)

  /** `fmt` verb `% x` on a byte array: two hex digits per byte, a space
      between bytes. */
  function SpacedHex(d: seq<byte>): string {
    if |d| == 0 then ""
    else if |d| == 1 then Hex2(d[0])
    else Hex2(d[0]) + " " + SpacedHex(d[1..])
  }

  /** The hex digits of each byte, as a list. */
  function HexBytes(d: seq<byte>): (r: seq<string>)
    ensures |r| == |d|
    ensures forall i :: 0 <= i < |d| ==> r[i] == Hex2(d[i])
  {
    if |d| == 0 then [] else [Hex2(d[0])] + HexBytes(d[1..])
  }

  /** `GetFingerprint` as the code computes it: format, then turn every
      space into a colon. */
  function Fingerprint(publicKey: string, sha1: string -> Digest): string {
    ReplaceChar("sha1:" + SpacedHex(sha1(publicKey)), ' ', ":")
  }

  lemma {:induction false} SpacedHexColons(d: seq<byte>)
    requires |d| > 0
    ensures ReplaceChar(SpacedHex(d), ' ', ":") == Join(HexBytes(d), ":")
    decreases |d|
  {
    var h := Hex2(d[0]);
    assert ' ' !in h by {
      assert HexValue(h[0]).Some? && HexValue(h[1]).Some?;
    }
    if |d| > 1 {
      ReplaceCharConcat(h, " " + SpacedHex(d[1..]), ' ', ":");
      ReplaceCharConcat(" ", SpacedHex(d[1..]), ' ', ":");
      assert h + " " + SpacedHex(d[1..]) == h + (" " + SpacedHex(d[1..]));
      SpacedHexColons(d[1..]);
      assert HexBytes(d)[1..] == HexBytes(d[1..]);
    }
  }

  /** The fingerprint is `sha1:` and then the twenty digest bytes as
      lower-case hex pairs joined by colons. */
  lemma FingerprintShape(publicKey: string, sha1: string -> Digest)
    ensures Fingerprint(publicKey, sha1) == "sha1:" + Join(HexBytes(sha1(publicKey)), ":")
  {
    var d := sha1(publicKey);
    ReplaceCharConcat("sha1:", SpacedHex(d), ' ', ":");
    SpacedHexColons(d);
  }

  /** Reads colon-separated hex pairs back into bytes. */
  function ParseHexPairs(s: string): Option<seq<byte>>
    decreases |s|
  {
    if |s| < 2 || HexValue(s[0]).None? || HexValue(s[1]).None? then None
    else
      var b := HexValue(s[0]).value * 16 + HexValue(s[1]).value;
      if b >= 256 then None
      else if |s| == 2 then Some([b as byte])
      else if s[2] != ':' then None
      else match ParseHexPairs(s[3..])
        case None => None
        case Some(rest) => Some([b as byte] + rest)
  }

  lemma {:induction false} ParseHexPairsJoin(d: seq<byte>)
    requires |d| > 0
    ensures ParseHexPairs(Join(HexBytes(d), ":")) == Some(d)
    decreases |d|
  {
    var h := Hex2(d[0]);
    var s := Join(HexBytes(d), ":");
    assert HexValue(h[0]).value * 16 + HexValue(h[1]).value == d[0];
    if |d| == 1 {
      assert s == h;
      assert d == [d[0]];
    } else {
      var rest := Join(HexBytes(d[1..]), ":");
      assert HexBytes(d)[1..] == HexBytes(d[1..]);
      assert s == h + ":" + rest;
      assert s[0] == h[0] && s[1] == h[1] && s[2] == ':';
      assert s[3..] == rest;
      ParseHexPairsJoin(d[1..]);
      assert d == [d[0]] + d[1..];
    }
  }

  /** The digest can be read back from the fingerprint. */
  lemma FingerprintReadsBack(publicKey: string, sha1: string -> Digest)
    ensures var fp := Fingerprint(publicKey, sha1);
            HasPrefix(fp, "sha1:") && ParseHexPairs(fp[5..]) == Some(sha1(publicKey))
  {
    FingerprintShape(publicKey, sha1);
    var fp := Fingerprint(publicKey, sha1);
    assert fp[..5] == "sha1:";
    assert fp[5..] == Join(HexBytes(sha1(publicKey)), ":");
    ParseHexPairsJoin(sha1(publicKey));
  }

  // -------------------------------------------------------------- details

  datatype Details = Details(subjectAltName: seq<string>, privateKey: string, publicKey: string)

  datatype Cert = Cert(id: string, alias: string, domain: string, region: string,
                       detailsInitd: bool, details: Details)

  /** `GetDetails` as written. When the details call fails the code still
      reads the fields of the nil result, which panics: `None`. `fetch` is
      the details call's answer; the flag says whether the call was made. */
  function GetDetailsAsWritten(c: Cert, fetch: Result<Details, string>): (r: Option<(Cert, bool)>)
    ensures c.detailsInitd ==> r == Some((c, false))
    ensures !c.detailsInitd && fetch.Ok? ==> r == Some((c.(detailsInitd := true, details := fetch.value), true))
  {
    if c.detailsInitd then Some((c, false))
    else match fetch
      case Err(_) => None
      case Ok(d) => Some((c.(detailsInitd := true, details := d), true))
  }

  /** A certificate whose details have not been loaded crashes the caller
      when the details call fails. */
  lemma GetDetailsAsWrittenPanics(c: Cert, msg: string)
    requires !c.detailsInitd
    ensures GetDetailsAsWritten(c, Err(msg)).None?
  {
  }

  /** `GetDetails` as the failure log suggests it was meant: a failed call
      is logged and the certificate keeps its (empty) details, marked
      loaded like any other. */
  function GetDetails(c: Cert, fetch: Result<Details, string>): (r: (Cert, bool))
    ensures r.1 <==> !c.detailsInitd
    ensures r.0.detailsInitd
    ensures r.0.id == c.id && r.0.alias == c.alias && r.0.domain == c.domain && r.0.region == c.region
    ensures c.detailsInitd ==> r.0 == c
    ensures !c.detailsInitd && fetch.Ok? ==> r.0.details == fetch.value
    ensures !c.detailsInitd && fetch.Err? ==> r.0.details == c.details
  {
    if c.detailsInitd then (c, false)
    else match fetch
      case Err(_) => (c.(detailsInitd := true), true)
      case Ok(d) => (c.(detailsInitd := true, details := d), true)
  }

  /** Details are fetched at most once: a second call makes no request and
      changes nothing, whatever the second reply would have been. */
  lemma GetDetailsOnce(c: Cert, first: Result<Details, string>, second: Result<Details, string>)
    ensures var once := GetDetails(c, first).0;
            GetDetails(once, second) == (once, false)
  {
  }

  /** Wherever the code as written does not crash, it agrees with the
      corrected version. */
  lemma GetDetailsAgrees(c: Cert, fetch: Result<Details, string>)
    requires GetDetailsAsWritten(c, fetch).Some?
    ensures GetDetailsAsWritten(c, fetch).value == GetDetails(c, fetch)
  {
  }

  /** `GetSubjectAlternativeNames`: the names, comma-joined. */
  function GetSubjectAlternativeNames(c: Cert, fetch: Result<Details, string>): (r: string)
    ensures var names := GetDetails(c, fetch).0.details.subjectAltName;
            (|names| == 0 ==> r == "") && (|names| == 1 ==> r == names[0])
            && (|names| > 1 ==> HasPrefix(r, names[0] + ","))
  {
    Join(GetDetails(c, fetch).0.details.subjectAltName, [','])
  }

  /** The joined names split back into the names, as long as there is at
      least one and none holds a comma. */
  lemma SubjectAltNamesSplitBack(c: Cert, fetch: Result<Details, string>)
    requires var names := GetDetails(c, fetch).0.details.subjectAltName;
             |names| > 0 && forall i :: 0 <= i < |names| ==> ',' !in names[i]
    ensures SplitOn(GetSubjectAlternativeNames(c, fetch), ',') == GetDetails(c, fetch).0.details.subjectAltName
  {
    SplitOnJoin(GetDetails(c, fetch).0.details.subjectAltName, ',');
  }

  /** `GetFingerprint` on a certificate: the fingerprint of its public key
      after the details are loaded. */
  function CertFingerprint(c: Cert, fetch: Result<Details, string>, sha1: string -> Digest): (r: string)
    ensures HasPrefix(r, "sha1:")
    ensures ParseHexPairs(r[5..]) == Some(sha1(GetDetails(c, fetch).0.details.publicKey))
  {
    var key := GetDetails(c, fetch).0.details.publicKey;
    FingerprintReadsBack(key, sha1);
    Fingerprint(key, sha1)
  }

  // -------------------------------------------------------------- listing

  const CertPageSize: int := 100

  /** One `DescribeCertificates` reply: the certificates and `TotalCount`,
      a failed call, or a reply whose certificates or total cannot be
      read. */
  datatype CertReply = CertPage(certs: seq<Cert>, total: int) | CertFailed(msg: string)
                     | CertsUnreadable | TotalUnreadable

  datatype CertListing = CertsListed(certs: seq<Cert>) | CertsFailed(msg: string) | CertsUnfinished

  function ReplyError(reply: CertReply): string
    requires !reply.CertPage?
  {
    match reply
    case CertFailed(m) => "DescribeCertificates: " + m
    case CertsUnreadable => "Unmarshal.Certificates"
    case TotalUnreadable => "Unmarshal.TotalCount"
  }

  /** Each certificate tagged with the region that listed it. */
  function InRegion(certs: seq<Cert>, region: string): (r: seq<Cert>)
    ensures |r| == |certs|
    ensures forall i :: 0 <= i < |certs| ==> r[i] == certs[i].(region := region)
  {
    seq(|certs|, i requires 0 <= i < |certs| => certs[i].(region := region))
  }

  /** The loop of `GetCertificates` as written: every page is read into the
      result list itself and an always-empty list is appended, so only the
      last page survives. `i` is the number of requests made so far,
      `last` the last page read; the second component is the offsets asked
      for from here on. Whatever the replies, a listing is the last page
      read, and pages are asked for at 0, 100, 200, … */
  function GetCertificatesAsWritten(replies: seq<CertReply>, region: string, i: nat, total: int, last: seq<Cert>)
    : (r: (CertListing, seq<int>))
    requires i <= |replies|
    ensures i + |r.1| <= |replies|
    ensures forall j :: 0 <= j < |r.1| ==> r.1[j] == CertPageSize * (i + j)
    ensures forall j :: i <= j < i + |r.1| - 1 ==> replies[j].CertPage? && replies[j].total > CertPageSize * (j + 1)
    ensures r.0.CertsListed? && |r.1| == 0 ==> total <= CertPageSize * i && r.0.certs == InRegion(last, region)
    ensures r.0.CertsListed? && |r.1| > 0 ==>
              var k := i + |r.1|;
              replies[k - 1].CertPage? && replies[k - 1].total <= CertPageSize * k
              && r.0.certs == InRegion(replies[k - 1].certs, region)
    ensures r.0.CertsFailed? ==> |r.1| > 0 && !replies[i + |r.1| - 1].CertPage?
                                 && r.0.msg == ReplyError(replies[i + |r.1| - 1])
    ensures r.0.CertsUnfinished? ==> i + |r.1| == |replies|
    decreases |replies| - i
  {
    if total <= CertPageSize * i then (CertsListed(InRegion(last, region)), [])
    else if i == |replies| then (CertsUnfinished, [])
    else match replies[i]
      case CertPage(certs, t) =>
        var rest := GetCertificatesAsWritten(replies, region, i + 1, t, certs);
        (rest.0, [CertPageSize * i] + rest.1)
      case _ => (CertsFailed(ReplyError(replies[i])), [CertPageSize * i])
  }

  /** Two pages, 150 certificates reported: the code as written returns
      only the second page. */
  lemma GetCertificatesAsWrittenDropsPages(a: Cert, b: Cert)
    requires a != b
    ensures var replies := [CertPage([a], 150), CertPage([b], 150)];
            GetCertificatesAsWritten(replies, "r", 0, 100, []).0 == CertsListed(InRegion([b], "r"))
            && |GetCertificatesAsWritten(replies, "r", 0, 100, []).0.certs| == 1
  {
    var replies := [CertPage([a], 150), CertPage([b], 150)];
    assert GetCertificatesAsWritten(replies, "r", 2, 150, [b]).0 == CertsListed(InRegion([b], "r"));
  }

  predicate PagesRead(replies: seq<CertReply>, k: nat)
    requires k <= |replies|
  {
    forall j :: 0 <= j < k ==> replies[j].CertPage?
  }

  /** The certificates of the first `k` replies, in order. */
  function CertsUpTo(replies: seq<CertReply>, k: nat): seq<Cert>
    requires k <= |replies| && PagesRead(replies, k)
  {
    if k == 0 then [] else CertsUpTo(replies, k - 1) + replies[k - 1].certs
  }

  /** `GetCertificates` with the pages concatenated, as the appending in
      the loop intends: offsets 0, 100, 200, … while the reported total
      is beyond the offset (a total of 100 is assumed before the first
      reply), every certificate tagged with the region. `offsets` are the
      offsets asked for. */
  method GetCertificates(replies: seq<CertReply>, region: string) returns (r: CertListing, offsets: seq<int>)
    ensures |offsets| <= |replies|
    ensures forall j :: 0 <= j < |offsets| ==> offsets[j] == CertPageSize * j
    ensures 0 < |offsets| ==> PagesRead(replies, |offsets| - 1)
    ensures forall j :: 0 <= j < |offsets| - 1 ==> replies[j].CertPage? && replies[j].total > CertPageSize * (j + 1)
    ensures r.CertsListed? ==> 0 < |offsets| && PagesRead(replies, |offsets|)
                               && replies[|offsets| - 1].total <= CertPageSize * |offsets|
                               && r.certs == InRegion(CertsUpTo(replies, |offsets|), region)
    ensures r.CertsFailed? ==> 0 < |offsets| && !replies[|offsets| - 1].CertPage?
                               && r.msg == ReplyError(replies[|offsets| - 1])
    ensures r.CertsUnfinished? ==> |offsets| == |replies| && PagesRead(replies, |replies|)
  {
    var certs: seq<Cert> := [];
    var total := 100;
    offsets := [];
    while total > CertPageSize * |offsets|
      invariant |offsets| <= |replies| && PagesRead(replies, |offsets|)
      invariant forall j :: 0 <= j < |offsets| ==> offsets[j] == CertPageSize * j
      invariant certs == CertsUpTo(replies, |offsets|)
      invariant 0 < |offsets| ==> total == replies[|offsets| - 1].total
      invariant |offsets| == 0 ==> total == 100
      invariant forall j :: 0 <= j < |offsets| - 1 ==> replies[j].total > CertPageSize * (j + 1)
      decreases |replies| - |offsets|
    {
      if |offsets| == |replies| {
        return CertsUnfinished, offsets;
      }
      var reply := replies[|offsets|];
      offsets := offsets + [CertPageSize * |offsets|];
      if !reply.CertPage? {
        return CertsFailed(ReplyError(reply)), offsets;
      }
      certs := certs + reply.certs;
      total := reply.total;
    }
    return CertsListed(InRegion(certs, region)), offsets;
  }
}
