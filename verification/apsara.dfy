/** Request policy of the Apsara (Alibaba private cloud) client: which
    endpoint serves a product, how a failed call is classified and retried,
    when a response body counts as an error, which header names the
    instance, and how lookups walk the regions and pages of a listing.
    Every remote call is an outcome handed in by the caller. */
module Apsara {
  import opened Wrappers
  import opened Text

  // ------------------------------------------------------------ endpoints

  const ProductEcs: string := "Ecs"
  const ProductRam: string := "Ram"
  const ProductRds: string := "Rds"
  const ProductSlb: string := "Slb"
  const ProductSts: string := "Sts"
  const ProductVpc: string := "Vpc"
  const ProductKvstore: string := "R-kvstore"
  const ProductActionTrail: string := "actiontrail"
  const ProductAscm: string := "ascm"

  /** The product endpoints configured for an account. */
  datatype Endpoints = Endpoints(
    ecs: string, ram: string, rds: string, slb: string, sts: string,
    vpc: string, kvs: string, oss: string, defaultRegion: string)

  /** The dedicated endpoint each product may be given, as a table. Products
      missing from the table have no dedicated endpoint. */
  function DedicatedEndpoints(eps: Endpoints): map<string, string> {
    map[ProductEcs := eps.ecs, ProductRam := eps.ram, ProductRds := eps.rds,
        ProductSlb := eps.slb, ProductSts := eps.sts, ProductVpc := eps.vpc,
        ProductKvstore := eps.kvs]
  }

  /** `getDomain`: the product's own endpoint when one is configured,
      otherwise the account URL. */
  function GetDomain(product: string, eps: Endpoints, url: string): (r: string)
    ensures product in DedicatedEndpoints(eps) && DedicatedEndpoints(eps)[product] != ""
            ==> r == DedicatedEndpoints(eps)[product]
    ensures product !in DedicatedEndpoints(eps) || DedicatedEndpoints(eps)[product] == ""
            ==> r == url
  {
    if product == ProductEcs && |eps.ecs| > 0 then eps.ecs
    else if product == ProductRam && |eps.ram| > 0 then eps.ram
    else if product == ProductRds && |eps.rds| > 0 then eps.rds
    else if product == ProductSlb && |eps.slb| > 0 then eps.slb
    else if product == ProductSts && |eps.sts| > 0 then eps.sts
    else if product == ProductVpc && |eps.vpc| > 0 then eps.vpc
    else if product == ProductKvstore && |eps.kvs| > 0 then eps.kvs
    else url
  }

  /** The action-trail product has no case of its own and always goes to the
      account URL. */
  lemma ActionTrailUsesAccountUrl(eps: Endpoints, url: string)
    ensures GetDomain(ProductActionTrail, eps, url) == url
  {
    assert ProductActionTrail !in DedicatedEndpoints(eps);
  }

  // ----------------------------------------------------- error classification

  const FatalCodes: seq<string> := ["InvalidAccessKeyId.NotFound"]
  const NotFoundCodes: seq<string> := ["404 Not Found", "EntityNotExist.Role", "EntityNotExist.Group"]
  const RetryCodes: seq<string> := [
    "EOF", "i/o timeout", "TLS handshake timeout", "connection reset by peer",
    "server misbehaving", "SignatureNonceUsed", "InvalidInstance.NotSupported",
    "try later", "BackendServer.configuring", "Another operation is being performed"]

  /** One pass of `for _, code := range codes { if strings.Contains(...) }`. */
  function AnyCodeIn(msg: string, codes: seq<string>): (r: bool)
    ensures r <==> ContainsAny(msg, codes)
  {
    if |codes| == 0 then false
    else if Contains(msg, codes[0]) then true
    else
      var rest := AnyCodeIn(msg, codes[1..]);
      assert ContainsAny(msg, codes[1..]) ==> ContainsAny(msg, codes) by {
        if ContainsAny(msg, codes[1..]) {
          var i :| 0 <= i < |codes[1..]| && Contains(msg, codes[1..][i]);
          assert codes[i + 1] == codes[1..][i];
        }
      }
      assert ContainsAny(msg, codes) ==> ContainsAny(msg, codes[1..]) by {
        if ContainsAny(msg, codes) {
          var i :| 0 <= i < |codes| && Contains(msg, codes[i]);
          assert i != 0;
          assert codes[1..][i - 1] == codes[i];
        }
      }
      rest
  }

  /** What `jsonRequest` does with an error message. */
  datatype ErrorClass =
    | Fatal      // returned at once, unchanged
    | NotFound   // returned at once as a wrapped not-found error
    | Transient  // slept on and retried
    | Final      // returned at once, unchanged

  function Classify(msg: string): (c: ErrorClass)
    ensures c == Fatal <==> ContainsAny(msg, FatalCodes)
    ensures c == NotFound <==> !ContainsAny(msg, FatalCodes) && ContainsAny(msg, NotFoundCodes)
    ensures c == Transient <==>
              !ContainsAny(msg, FatalCodes) && !ContainsAny(msg, NotFoundCodes) && ContainsAny(msg, RetryCodes)
  {
    if AnyCodeIn(msg, FatalCodes) then Fatal
    else if AnyCodeIn(msg, NotFoundCodes) then NotFound
    else if AnyCodeIn(msg, RetryCodes) then Transient
    else Final
  }

  // ----------------------------------------------------------- one request

  /** The parts of a parsed response body the client looks at. `text` is the
      body re-serialised, which becomes the error message. */
  datatype Json = Json(code: Option<string>, hasErrorKey: bool, text: string)

  /** What the SDK call and the JSON parser produced for one request. */
  datatype Transport =
    | TransportError(msg: string)
    | Unparsable(msg: string)
    | Parsed(body: Json)

  /** What `fmt.Errorf(s)` makes of `s` when `s` is used as the format and
      there are no arguments: `%%` is a percent sign, `%` before any other
      character stands for a missing argument of that verb, and a final
      `%` has no verb. */
  function FormatNoArgs(s: string): (r: string)
    ensures '%' !in s ==> r == s
    decreases |s|
  {
    if |s| == 0 then ""
    else if s[0] != '%' then [s[0]] + FormatNoArgs(s[1..])
    else if |s| == 1 then "%!(NOVERB)"
    else if s[1] == '%' then "%" + FormatNoArgs(s[2..])
    else "%!" + [s[1]] + "(MISSING)" + FormatNoArgs(s[2..])
  }

  /** A body holding a percent sign does not come out as it went in: the
      letter after it is taken for a verb. */
  lemma FormatNoArgsMangles()
    ensures FormatNoArgs("a%d") == "a%!d(MISSING)"
    ensures FormatNoArgs("%%") == "%"
  {
  }

  /** `_jsonRequest` after the SDK call: wraps transport and parse errors
      and rejects bodies that report an error. `paramsText` is how the
      parameters print in the wrapped message. */
  function CheckResponse(apiName: string, paramsText: string, t: Transport): (r: Result<Json, string>)
    ensures r.Ok? <==>
              t.Parsed? && !(t.body.code.Some? && t.body.code.value != "" && t.body.code.value != "200")
              && !t.body.hasErrorKey
    ensures r.Ok? ==> r.value == t.body
    ensures t.Parsed? && r.Err? ==> r.error == FormatNoArgs(t.body.text)
    ensures t.Parsed? && r.Err? && '%' !in t.body.text ==> r.error == t.body.text
    ensures t.TransportError? ==> HasSuffix(r.error, t.msg)
    ensures t.Unparsable? ==> HasSuffix(r.error, t.msg)
  {
    match t
    case TransportError(msg) =>
      Err("processCommonRequest(" + apiName + ", " + paramsText + "): " + msg)
    case Unparsable(msg) =>
      Err("jsonutils.Parse: " + msg)
    case Parsed(body) =>
      if body.code.Some? && |body.code.value| > 0 && body.code.value != "200" then Err(FormatNoArgs(body.text))
      else if body.hasErrorKey then Err(FormatNoArgs(body.text))
      else Ok(body)
  }

  /** A code found in the SDK's message is still found after
      `CheckResponse` wraps it, so wrapping never changes a classification
      from "contains code" to "does not". */
  lemma WrappingKeepsCodes(apiName: string, paramsText: string, msg: string, code: string)
    requires Contains(msg, code)
    ensures Contains(CheckResponse(apiName, paramsText, TransportError(msg)).error, code)
    ensures Contains(CheckResponse(apiName, paramsText, Unparsable(msg)).error, code)
  {
    ContainsAfterPrefix("processCommonRequest(" + apiName + ", " + paramsText + "): ", msg, code);
    ContainsAfterPrefix("jsonutils.Parse: ", msg, code);
  }

  // --------------------------------------------------------- retry policy

  /** Errors `jsonRequest` returns. */
  datatype ApiError =
    | Raw(msg: string)            // the error of the last attempt, as is
    | WrappedNotFound(msg: string) // `errors.Wrapf(ErrNotFound, msg)`
    | Timeout(apiName: string)     // "timeout for request ..."

  /** The value `jsonRequest` returns for an attempt that is not retried. */
  function Settle(r: Result<Json, string>): Result<Json, ApiError>
    requires r.Err? ==> Classify(r.error) != Transient
  {
    match r
    case Ok(b) => Ok(b)
    case Err(m) => if Classify(m) == NotFound then Err(WrappedNotFound(m)) else Err(Raw(m))
  }

  predicate IsTransient(r: Result<Json, string>) {
    r.Err? && Classify(r.error) == Transient
  }

  const MaxAttempts: nat := 3

  /** `jsonRequest`: at most three calls; a transient failure after call `i`
      sleeps `10*i` seconds and retries, including after the third call,
      which then gives up with a timeout. `replies[i]` is what call `i+1`
      returns if it is made; `sleeps` lists the sleeps in seconds. */
  method JsonRequest(apiName: string, paramsText: string, replies: seq<Transport>)
    returns (r: Result<Json, ApiError>, sleeps: seq<nat>)
    requires |replies| == MaxAttempts
    ensures |sleeps| <= MaxAttempts
    ensures forall j :: 0 <= j < |sleeps| ==> sleeps[j] == 10 * (j + 1)
    ensures forall j :: 0 <= j < |sleeps| ==> IsTransient(CheckResponse(apiName, paramsText, replies[j]))
    ensures |sleeps| < MaxAttempts ==>
              !IsTransient(CheckResponse(apiName, paramsText, replies[|sleeps|]))
              && r == Settle(CheckResponse(apiName, paramsText, replies[|sleeps|]))
    ensures |sleeps| == MaxAttempts <==> r == Err(Timeout(apiName))
  {
    sleeps := [];
    var i := 1;
    while i < 4
      invariant 1 <= i <= 4
      invariant |sleeps| == i - 1
      invariant forall j :: 0 <= j < |sleeps| ==> sleeps[j] == 10 * (j + 1)
      invariant forall j :: 0 <= j < |sleeps| ==> IsTransient(CheckResponse(apiName, paramsText, replies[j]))
    {
      var resp := CheckResponse(apiName, paramsText, replies[i - 1]);
      var retry := false;
      if resp.Err? {
        var kind := Classify(resp.error);
        if kind == Fatal {
          return Err(Raw(resp.error)), sleeps;
        }
        if kind == NotFound {
          return Err(WrappedNotFound(resp.error)), sleeps;
        }
        retry := kind == Transient;
      }
      if retry {
        sleeps := sleeps + [i * 10];
        i := i + 1;
        continue;
      }
      return (match resp case Ok(b) => Ok(b) case Err(m) => Err(Raw(m))), sleeps;
    }
    return Err(Timeout(apiName)), sleeps;
  }

  // -------------------------------------------------------- instance header

  /** A parameter key whose value may name the instance: ends in `Id` and is
      not the region id, compared case-insensitively. */
  predicate IsIdKey(k: string) {
    ToLower(k) != "regionid" && HasSuffix(k, "Id")
  }

  /** The value of the last id-like parameter in iteration order, or `id`
      when there is none; this is the loop of `_jsonRequest`. */
  function LastIdValue(params: seq<(string, string)>, id: string): (r: string)
    ensures (forall i :: 0 <= i < |params| ==> !IsIdKey(params[i].0)) ==> r == id
    ensures r == id || exists i :: 0 <= i < |params| && IsIdKey(params[i].0) && params[i].1 == r
    ensures (exists i :: 0 <= i < |params| && IsIdKey(params[i].0))
            && (forall i :: 0 <= i < |params| && IsIdKey(params[i].0) ==> params[i].1 != "")
            ==> r != ""
    ensures forall i :: 0 <= i < |params| && IsIdKey(params[i].0)
                        && (forall j :: i < j < |params| ==> !IsIdKey(params[j].0))
                        ==> r == params[i].1
  {
    if |params| == 0 then id
    else
      var next := if IsIdKey(params[0].0) then params[0].1 else id;
      var r := LastIdValue(params[1..], next);
      assert forall i :: 0 <= i < |params[1..]| ==> params[1..][i] == params[i + 1];
      r
  }

  /** The `x-acs-instanceId` header of `_jsonRequest`, `None` when it is not
      set. `params` lists the request parameters in the order the map is
      iterated, which Go leaves unspecified. */
  function InstanceIdHeader(apiName: string, params: seq<(string, string)>): (r: Option<string>)
    ensures r.Some? ==> HasPrefix(apiName, "Describe") && r.value != ""
    ensures r.Some? ==> exists i :: 0 <= i < |params| && IsIdKey(params[i].0) && params[i].1 == r.value
    ensures !HasPrefix(apiName, "Describe") ==> r.None?
    ensures (forall i :: 0 <= i < |params| ==> !IsIdKey(params[i].0)) ==> r.None?
    ensures HasPrefix(apiName, "Describe")
            && (exists i :: 0 <= i < |params| && IsIdKey(params[i].0))
            && (forall i :: 0 <= i < |params| && IsIdKey(params[i].0) ==> params[i].1 != "")
            ==> r.Some?
    ensures forall i :: 0 <= i < |params| && IsIdKey(params[i].0) && HasPrefix(apiName, "Describe")
                        && (forall j :: i < j < |params| ==> !IsIdKey(params[j].0))
                        ==> r == (if params[i].1 != "" then Some(params[i].1) else None)
  {
    var id := LastIdValue(params, "");
    if HasPrefix(apiName, "Describe") && |id| > 0 then Some(id) else None
  }

  // ---------------------------------------------------------- region scans

  /** What one region's `GetI...ById` returned. `NotFoundErr` is exactly
      `cloudprovider.ErrNotFound`; a wrapped not-found is a `Failed`. */
  datatype Lookup<T> = Found(v: T) | NotFoundErr | Failed(msg: string)

  /** `GetIHostById`, `GetIVpcById` and `GetIStorageById`: ask the regions in
      order, stop at the first success or the first error other than
      not-found. `asked` is how many regions were queried. */
  method FindInRegions<T>(replies: seq<Lookup<T>>) returns (r: Lookup<T>, asked: nat)
    ensures asked <= |replies|
    ensures forall j :: 0 <= j < asked - 1 ==> replies[j].NotFoundErr?
    ensures r.NotFoundErr? <==> forall j :: 0 <= j < |replies| ==> replies[j].NotFoundErr?
    ensures r.NotFoundErr? ==> asked == |replies|
    ensures !r.NotFoundErr? ==> 0 < asked && r == replies[asked - 1]
  {
    asked := 0;
    while asked < |replies|
      invariant asked <= |replies|
      invariant forall j :: 0 <= j < asked ==> replies[j].NotFoundErr?
    {
      var reply := replies[asked];
      asked := asked + 1;
      if reply.Found? {
        return reply, asked;
      } else if !reply.NotFoundErr? {
        return reply, asked;
      }
    }
    return NotFoundErr, asked;
  }

  // -------------------------------------------------------- project paging

  const ProjectPageSize: nat := 50

  /** One `GetResourceGroups(pageNumber, 50)` reply. */
  datatype PageReply<T> = Page(parts: seq<T>, total: int) | PageFailed(msg: string)

  predicate PagesBelow<T>(replies: seq<PageReply<T>>, k: nat)
    requires k <= |replies|
  {
    forall j :: 0 <= j < k ==> replies[j].Page?
  }

  /** Items of the first `k` replies, in page order. */
  function PartsUpTo<T>(replies: seq<PageReply<T>>, k: nat): seq<T>
    requires k <= |replies|
    requires PagesBelow(replies, k)
  {
    if k == 0 then [] else PartsUpTo(replies, k - 1) + replies[k - 1].parts
  }

  /** How a paged listing ended: all pages read, a page request failed, or
      the replies handed in ran out before the loop stopped. */
  datatype Listing<T> = Listed(items: seq<T>) | ListFailed(msg: string) | Unfinished

  /** `GetIProjects`: asks for pages of 50 starting at page 1 and stops once
      the groups read reach the total the last page reported. `replies[k]`
      answers the request for page `k + 1`; `pages` lists the page numbers
      requested. */
  method GetIProjects<T>(replies: seq<PageReply<T>>) returns (r: Listing<T>, pages: seq<nat>)
    ensures |pages| <= |replies|
    ensures forall j :: 0 <= j < |pages| ==> pages[j] == j + 1
    ensures 0 < |pages| ==> PagesBelow(replies, |pages| - 1)
    ensures forall j :: 0 <= j < |pages| - 1 ==> |PartsUpTo(replies, j + 1)| < replies[j].total
    ensures r.Listed? ==> 0 < |pages| && PagesBelow(replies, |pages|)
    ensures r.Listed? ==> r.items == PartsUpTo(replies, |pages|)
    ensures r.Listed? ==> |r.items| >= replies[|pages| - 1].total
    ensures r.ListFailed? ==> 0 < |pages| && replies[|pages| - 1] == PageFailed(r.msg)
    ensures r.Unfinished? ==> |pages| == |replies| && PagesBelow(replies, |pages|)
  {
    var acc: seq<T> := [];
    pages := [];
    var pageNumber := 1;
    while |pages| < |replies|
      invariant |pages| <= |replies|
      invariant pageNumber == |pages| + 1
      invariant forall j :: 0 <= j < |pages| ==> pages[j] == j + 1
      invariant PagesBelow(replies, |pages|)
      invariant acc == PartsUpTo(replies, |pages|)
      invariant forall j :: 0 <= j < |pages| ==> |PartsUpTo(replies, j + 1)| < replies[j].total
    {
      var reply := replies[|pages|];
      ghost var before := pages;
      pages := pages + [pageNumber];
      match reply
      case PageFailed(msg) =>
        assert PagesBelow(replies, |pages| - 1) by { assert |pages| - 1 == |before|; }
        return ListFailed(msg), pages;
      case Page(parts, total) =>
        assert PagesBelow(replies, |pages|);
        acc := acc + parts;
        assert acc == PartsUpTo(replies, |pages|);
        if |acc| >= total {
          return Listed(acc), pages;
        }
        pageNumber := pageNumber + 1;
    }
    return Unfinished, pages;
  }

  // --------------------------------------------------------------- buckets

  datatype BucketInfo = BucketInfo(name: string, location: string, creationDate: string, storageClass: string)
  datatype Bucket = Bucket(regionId: string, name: string, location: string, creationDate: string, storageClass: string)

  /** The region a bucket location names: the location without a leading
      `oss-`. */
  function BucketRegionId(location: string): (r: string)
    ensures HasPrefix(location, "oss-") ==> "oss-" + r == location
    ensures !HasPrefix(location, "oss-") ==> r == location
  {
    if HasPrefix(location, "oss-") then location[4..] else location
  }

  function MakeBucket(b: BucketInfo): Bucket {
    Bucket(BucketRegionId(b.location), b.name, b.location, b.creationDate, b.storageClass)
  }

  /** The bucket loop of `fetchBuckets`: keeps, in order, the buckets whose
      region is one of the client's regions, and drops the rest. */
  function KnownBuckets(infos: seq<BucketInfo>, regionIds: seq<string>): (r: seq<Bucket>)
    ensures |r| <= |infos|
    ensures forall i :: 0 <= i < |r| ==> r[i].regionId in regionIds
    ensures forall i :: 0 <= i < |r| ==> exists j :: 0 <= j < |infos| && r[i] == MakeBucket(infos[j])
    ensures forall j :: 0 <= j < |infos| && BucketRegionId(infos[j].location) in regionIds
              ==> MakeBucket(infos[j]) in r
    ensures |infos| == 1 ==> r == (if BucketRegionId(infos[0].location) in regionIds then [MakeBucket(infos[0])] else [])
  {
    if |infos| == 0 then []
    else
      var rest := KnownBuckets(infos[1..], regionIds);
      assert forall j :: 0 <= j < |infos[1..]| ==> infos[1..][j] == infos[j + 1];
      if BucketRegionId(infos[0].location) in regionIds then [MakeBucket(infos[0])] + rest else rest
  }

  /** The filter works bucket by bucket: over a concatenation it is the
      concatenation of the two filters, so with the one-bucket case above
      the order is kept and nothing is repeated. */
  lemma {:induction false} KnownBucketsConcat(a: seq<BucketInfo>, b: seq<BucketInfo>, regionIds: seq<string>)
    ensures KnownBuckets(a + b, regionIds) == KnownBuckets(a, regionIds) + KnownBuckets(b, regionIds)
  {
    if a == [] {
      assert a + b == b;
    } else {
      assert (a + b)[0] == a[0];
      assert (a + b)[1..] == a[1..] + b;
      KnownBucketsConcat(a[1..], b, regionIds);
    }
  }

  datatype BucketListing = BucketListing(ownerId: string, ownerName: string, buckets: seq<BucketInfo>)
  datatype ClientBuckets = ClientBuckets(ownerId: string, ownerName: string, buckets: seq<Bucket>)

  /** `fetchBuckets` given the outcome of `ListBuckets`. */
  function FetchBuckets(listing: Result<BucketListing, string>, regionIds: seq<string>): (r: Result<ClientBuckets, string>)
    ensures r.Err? <==> listing.Err?
    ensures r.Ok? ==> r.value.ownerId == listing.value.ownerId && r.value.ownerName == listing.value.ownerName
    ensures r.Ok? ==> forall i :: 0 <= i < |r.value.buckets| ==> r.value.buckets[i].regionId in regionIds
    ensures r.Ok? ==> r.value.buckets == KnownBuckets(listing.value.buckets, regionIds)
  {
    match listing
    case Err(e) => Err("oss.ListBuckets: " + e)
    case Ok(l) => Ok(ClientBuckets(l.ownerId, l.ownerName, KnownBuckets(l.buckets, regionIds)))
  }
}
