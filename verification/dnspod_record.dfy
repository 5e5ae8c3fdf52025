/** DNSPod records of the Tencent Cloud provider: how a record set is turned
    into the parameters of the record create and modify calls, how the
    record listing is paged, and how a listed record reports its value,
    MX priority, status and enabled flag. The DNS API itself is a sequence
    of replies handed in by the caller. */
module DnspodRecord {
  import opened Wrappers
  import opened Text

  /** The record types with special handling (`cloudprovider.DnsTypeMX`,
      `DnsTypeCNAME`, `DnsTypeSRV`). */
  const TypeMx: string := "MX"
  const TypeCname: string := "CNAME"
  const TypeSrv: string := "SRV"

  const MinTtl: int := 600
  const MaxTtl: int := 604800

  /** The requested record set (`cloudprovider.DnsRecordSet`); `recordLine`
      is what the line-label table gives for its policy. */
  datatype RecordSet = RecordSet(
    externalId: string, dnsName: string, dnsType: string, dnsValue: string,
    ttl: int, mxPriority: int, recordLine: string)

  /** The TTL forced into the range DNSPod accepts. */
  function ClampTtl(ttl: int): (r: int)
    ensures MinTtl <= r <= MaxTtl
    ensures MinTtl <= ttl <= MaxTtl ==> r == ttl
    ensures ttl < MinTtl ==> r == MinTtl
    ensures ttl > MaxTtl ==> r == MaxTtl
  {
    if ttl < MinTtl then MinTtl else if ttl > MaxTtl then MaxTtl else ttl
  }

  /** Clamping is idempotent and keeps the order of TTLs. */
  lemma ClampTtlIdempotentMonotone(a: int, b: int)
    ensures ClampTtl(ClampTtl(a)) == ClampTtl(a)
    ensures a <= b ==> ClampTtl(a) <= ClampTtl(b)
  {
  }

  /** The parameters both calls share; `mx` only for MX records. */
  function RecordParams(opts: RecordSet, domainName: string, subDomain: string): (r: map<string, string>)
    ensures "mx" in r <==> opts.dnsType == TypeMx
    ensures opts.dnsType == TypeMx ==> r["mx"] == FormatInt(opts.mxPriority)
    ensures r.Keys - {"mx"} == {"domain", "subDomain", "recordType", "ttl", "value", "recordLine"}
    ensures r["domain"] == domainName && r["subDomain"] == subDomain
    ensures r["recordType"] == opts.dnsType && r["value"] == opts.dnsValue
    ensures r["recordLine"] == opts.recordLine && r["ttl"] == FormatInt(opts.ttl)
  {
    var base := map["domain" := domainName, "subDomain" := subDomain, "recordType" := opts.dnsType,
                    "ttl" := FormatInt(opts.ttl), "value" := opts.dnsValue, "recordLine" := opts.recordLine];
    if opts.dnsType == TypeMx then base["mx" := FormatInt(opts.mxPriority)] else base
  }

  /** `CreateDnsRecord` before the call: the record set with its TTL
      clamped and an empty name written as `@` (the caller's record set is
      changed in place, so it is returned), and the call's parameters. */
  function CreateParams(opts: RecordSet, domainName: string): (r: (RecordSet, map<string, string>))
    ensures r.0 == opts.(ttl := ClampTtl(opts.ttl), dnsName := if opts.dnsName == "" then "@" else opts.dnsName)
    ensures r.1 == RecordParams(r.0, domainName, r.0.dnsName)
    ensures r.1["subDomain"] != ""
  {
    var opts' := opts.(ttl := ClampTtl(opts.ttl), dnsName := if |opts.dnsName| < 1 then "@" else opts.dnsName);
    (opts', RecordParams(opts', domainName, opts'.dnsName))
  }

  /** The relative name a modify call sends: the zone suffix `.<domain>`
      removed once, and `@` when nothing is left. */
  function SubDomain(dnsName: string, domainName: string): (r: string)
    ensures r != ""
    ensures HasSuffix(dnsName, "." + domainName) && |dnsName| > |domainName| + 1
            ==> r + "." + domainName == dnsName
    ensures !HasSuffix(dnsName, "." + domainName) && dnsName != "" ==> r == dnsName
    ensures dnsName == "" || dnsName == "." + domainName ==> r == "@"
  {
    var s := TrimSuffix(dnsName, "." + domainName);
    if |s| < 1 then "@" else s
  }

  /** `ModifyDnsRecord` before the call: the clamped record set and the
      parameters, which also name the record. */
  function ModifyParams(opts: RecordSet, domainName: string): (r: (RecordSet, map<string, string>))
    ensures r.0 == opts.(ttl := ClampTtl(opts.ttl))
    ensures r.1 == RecordParams(r.0, domainName, SubDomain(opts.dnsName, domainName))["recordId" := opts.externalId]
  {
    var opts' := opts.(ttl := ClampTtl(opts.ttl));
    (opts', RecordParams(opts', domainName, SubDomain(opts.dnsName, domainName))["recordId" := opts.externalId])
  }

  /** The TTL a create or modify call sends reads back as the clamped TTL. */
  lemma SentTtlReadsBack(opts: RecordSet, domainName: string)
    ensures Atoi(CreateParams(opts, domainName).1["ttl"]) == Some(ClampTtl(opts.ttl))
    ensures Atoi(ModifyParams(opts, domainName).1["ttl"]) == Some(ClampTtl(opts.ttl))
  {
    AtoiFormatInt(ClampTtl(opts.ttl));
  }

  /** What the create call answered: an error, a reply without a readable
      record, or the new record's id. */
  datatype CreateReply = CreateFailed(msg: string) | NoRecord | Created(id: string)

  function CreateResult(reply: CreateReply): (r: Result<string, string>)
    ensures r.Ok? <==> reply.Created?
    ensures r.Ok? ==> r.value == reply.id
  {
    match reply
    case CreateFailed(m) => Err("RecordCreate: " + m)
    case NoRecord => Err("Unmarshal(records)")
    case Created(id) => Ok(id)
  }

  // -------------------------------------------------------------- records

  /** A record as the listing returns it. */
  datatype DnsRecord = DnsRecord(id: int, ttl: int, value: string, enabled: int, status: string,
                                 name: string, recordType: string, mx: int)

  predicate IsDotted(recordType: string) {
    recordType == TypeMx || recordType == TypeCname || recordType == TypeSrv
  }

  /** `GetDnsValue`: MX, CNAME and SRV values come with a trailing dot,
      which is dropped. Slicing an empty value of those types panics, so
      such a record has a value. */
  function GetDnsValue(rec: DnsRecord): (r: string)
    requires IsDotted(rec.recordType) ==> |rec.value| > 0
    ensures IsDotted(rec.recordType) ==> r + [rec.value[|rec.value| - 1]] == rec.value
    ensures !IsDotted(rec.recordType) ==> r == rec.value
  {
    if IsDotted(rec.recordType) then rec.value[..|rec.value| - 1] else rec.value
  }

  function GetMxPriority(rec: DnsRecord): (r: int)
    ensures rec.recordType == TypeMx ==> r == rec.mx
    ensures rec.recordType != TypeMx ==> r == 0
  {
    if rec.recordType == TypeMx then rec.mx else 0
  }

  function GetEnabled(rec: DnsRecord): (r: bool)
    ensures r <==> rec.enabled == 1
  {
    rec.enabled == 1
  }

  datatype RecordStatus = Available | Unknown

  /** Only a record DNSPod marks as `spam` has an unknown status. */
  function GetStatus(rec: DnsRecord): (r: RecordStatus)
    ensures r == Unknown <==> rec.status == "spam"
  {
    if rec.status != "spam" then Available else Unknown
  }

  // -------------------------------------------------------------- listing

  const PageLength: int := 100

  /** The parameters of one record-list request of `GetAllDnsRecords`: the
      offset, pages of `PageLength`, the domain, and project `-1`, which
      asks for every project. */
  function ListParams(domainName: string, offset: int): (r: map<string, string>)
    requires MinInt64 <= offset <= MaxInt64
    ensures r.Keys == {"offset", "length", "domain", "qProjectId"}
    ensures Atoi(r["offset"]) == Some(offset) && Atoi(r["length"]) == Some(PageLength)
    ensures r["domain"] == domainName && r["qProjectId"] == "-1"
  {
    AtoiFormatInt(offset);
    AtoiFormatInt(PageLength);
    map["offset" := FormatInt(offset), "length" := FormatInt(PageLength),
        "domain" := domainName, "qProjectId" := "-1"]
  }

  /** One reply of the record-list call: the records of the page and the
      `record_total` text, or a failure. */
  datatype ListReply = ListPage(records: seq<DnsRecord>, recordTotal: string) | ListFailed(msg: string)

  /** `GetDnsRecords` on a reply: the page and the total, which must be a
      decimal number. */
  function ReadPage(reply: ListReply): (r: Result<(seq<DnsRecord>, int), string>)
    ensures r.Ok? <==> reply.ListPage? && Atoi(reply.recordTotal).Some?
    ensures r.Ok? ==> r.value == (reply.records, Atoi(reply.recordTotal).value)
  {
    match reply
    case ListFailed(m) => Err("RecordList: " + m)
    case ListPage(records, total) =>
      match Atoi(total)
      case None => Err("strconv.Atoi(" + total + ")")
      case Some(n) => Ok((records, n))
  }

  /** A page as the listing loop sees it: its records and the total, or
      the error. */
  type PageRead = Result<(seq<DnsRecord>, int), string>

  predicate AllRead(pages: seq<PageRead>, k: nat)
    requires k <= |pages|
  {
    forall i :: 0 <= i < k ==> pages[i].Ok?
  }

  /** The records of the first `k` pages, in order. */
  function RecordsUpTo(pages: seq<PageRead>, k: nat): seq<DnsRecord>
    requires k <= |pages| && AllRead(pages, k)
  {
    if k == 0 then [] else RecordsUpTo(pages, k - 1) + pages[k - 1].value.0
  }

  datatype Listing = Listed(records: seq<DnsRecord>) | ListError(msg: string) | Unfinished

  /** The loop of `GetAllDnsRecords` over the pages read: asks at the
      offset of the records seen so far and stops once the reported total
      is reached. `Unfinished` means the pages ran out first; `offsets` are
      the offsets asked for. */
  method CollectPages(pages: seq<PageRead>) returns (r: Listing, offsets: seq<int>)
    ensures |offsets| <= |pages|
    ensures 0 < |offsets| ==> offsets[0] == 0 && AllRead(pages, |offsets| - 1)
    ensures forall i :: 0 <= i < |offsets| - 1 ==> pages[i].Ok? && offsets[i + 1] == offsets[i] + |pages[i].value.0|
    ensures forall i :: 0 <= i < |offsets| - 1 ==> pages[i].Ok? && pages[i].value.1 > offsets[i + 1]
    ensures r.Listed? ==> 0 < |offsets| && AllRead(pages, |offsets|)
                          && r.records == RecordsUpTo(pages, |offsets|)
                          && pages[|offsets| - 1].value.1 <= |r.records|
    ensures r.ListError? ==> 0 < |offsets| && pages[|offsets| - 1] == Err(r.msg)
    ensures r.Unfinished? ==> |offsets| == |pages| && AllRead(pages, |pages|)
  {
    var result: seq<DnsRecord> := [];
    offsets := [];
    while |offsets| < |pages|
      invariant |offsets| <= |pages| && AllRead(pages, |offsets|)
      invariant result == RecordsUpTo(pages, |offsets|)
      invariant 0 < |offsets| ==> offsets[0] == 0
      invariant 0 < |offsets| ==> |result| == offsets[|offsets| - 1] + |pages[|offsets| - 1].value.0|
      invariant forall i :: 0 <= i < |offsets| - 1 ==> offsets[i + 1] == offsets[i] + |pages[i].value.0|
      invariant forall i :: 0 <= i < |offsets| - 1 ==> pages[i].value.1 > offsets[i + 1]
      invariant 0 < |offsets| ==> pages[|offsets| - 1].value.1 > |result|
    {
      var page := pages[|offsets|];
      offsets := offsets + [|result|];
      if page.Err? {
        return ListError(page.error), offsets;
      }
      var (records, total) := page.value;
      result := result + records;
      if total <= |result| {
        return Listed(result), offsets;
      }
    }
    return Unfinished, offsets;
  }

  /** Each reply read as a page. */
  function ReadPages(replies: seq<ListReply>): (r: seq<PageRead>)
    ensures |r| == |replies|
    ensures forall i :: 0 <= i < |replies| ==> r[i] == ReadPage(replies[i])
  {
    seq(|replies|, i requires 0 <= i < |replies| => ReadPage(replies[i]))
  }

  /** `GetAllDnsRecords`: pages of 100 from offset 0, over the successive
      replies of the record-list call. */
  method GetAllDnsRecords(replies: seq<ListReply>) returns (r: Listing, offsets: seq<int>)
    ensures var pages := ReadPages(replies);
            |offsets| <= |replies|
            && (0 < |offsets| ==> offsets[0] == 0)
            && (forall i :: 0 <= i < |offsets| - 1 ==> pages[i].Ok? && offsets[i + 1] == offsets[i] + |pages[i].value.0|)
            && (forall i :: 0 <= i < |offsets| - 1 ==> pages[i].Ok? && pages[i].value.1 > offsets[i + 1])
            && (r.Unfinished? ==> |offsets| == |replies| && AllRead(pages, |replies|))
            && (r.Listed? ==> 0 < |offsets| && AllRead(pages, |offsets|)
                              && r.records == RecordsUpTo(pages, |offsets|)
                              && pages[|offsets| - 1].value.1 <= |r.records|)
            && (r.ListError? ==> 0 < |offsets| && ReadPage(replies[|offsets| - 1]) == Err(r.msg))
  {
    r, offsets := CollectPages(ReadPages(replies));
  }
}
