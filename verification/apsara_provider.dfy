/** Credential validation and the fixed capability lists of the Apsara
    provider factory. */
module ApsaraProvider {
  import opened Wrappers

  /** The cloud-account credential a user submits. `endpoints` is `None`
      when no Apsara endpoint block was given (a nil pointer). */
  datatype Credential = Credential(
    accessKeyId: string, accessKeySecret: string, endpoint: string,
    endpoints: Option<EndpointBlock>)

  datatype EndpointBlock = EndpointBlock(defaultRegion: string)

  /** The validated account. An empty field is one the validation did not
      fill in. */
  datatype Cloudaccount = Cloudaccount(account: string, secret: string, accessUrl: string)

  /** A missing-parameter error naming the parameter. */
  datatype MissingParameter = MissingParameter(name: string)

  const EmptyAccount: Cloudaccount := Cloudaccount("", "", "")

  /** `ValidateCreateCloudaccountData`. Like the source it returns the
      partly filled account next to the error: the key id and secret are
      copied before the endpoint is checked, the endpoint before the default
      region is. */
  function ValidateCreate(input: Credential): (r: (Cloudaccount, Option<MissingParameter>))
    ensures input.accessKeyId == "" ==> r == (EmptyAccount, Some(MissingParameter("access_key_id")))
    ensures input.accessKeyId != "" && input.accessKeySecret == ""
            ==> r == (EmptyAccount, Some(MissingParameter("access_key_secret")))
    ensures input.accessKeyId != "" && input.accessKeySecret != "" && input.endpoint == ""
            ==> r == (Cloudaccount(input.accessKeyId, input.accessKeySecret, ""), Some(MissingParameter("endpoint")))
    ensures input.accessKeyId != "" && input.accessKeySecret != "" && input.endpoint != ""
            ==> r.0 == Cloudaccount(input.accessKeyId, input.accessKeySecret, input.endpoint)
    ensures r.1.None? <==>
              input.accessKeyId != "" && input.accessKeySecret != "" && input.endpoint != ""
              && input.endpoints.Some? && input.endpoints.value.defaultRegion != ""
    ensures r.1.Some? && r.1.value.name == "default_region" <==>
              input.accessKeyId != "" && input.accessKeySecret != "" && input.endpoint != ""
              && (input.endpoints.None? || input.endpoints.value.defaultRegion == "")
  {
    if |input.accessKeyId| == 0 then (EmptyAccount, Some(MissingParameter("access_key_id")))
    else if |input.accessKeySecret| == 0 then (EmptyAccount, Some(MissingParameter("access_key_secret")))
    else
      var out := Cloudaccount(input.accessKeyId, input.accessKeySecret, "");
      if |input.endpoint| == 0 then (out, Some(MissingParameter("endpoint")))
      else
        var out' := out.(accessUrl := input.endpoint);
        if input.endpoints.None? || |input.endpoints.value.defaultRegion| == 0 then
          (out', Some(MissingParameter("default_region")))
        else (out', None)
  }

  /** `ValidateUpdateCloudaccountCredential`: only the key id and secret are
      required and only they are returned. */
  function ValidateUpdate(input: Credential): (r: (Cloudaccount, Option<MissingParameter>))
    ensures r.1.None? <==> input.accessKeyId != "" && input.accessKeySecret != ""
    ensures r.1.None? ==> r.0 == Cloudaccount(input.accessKeyId, input.accessKeySecret, "")
    ensures r.1.Some? ==> r.0 == EmptyAccount
    ensures input.accessKeyId == "" ==> r.1 == Some(MissingParameter("access_key_id"))
    ensures input.accessKeyId != "" && input.accessKeySecret == ""
            ==> r.1 == Some(MissingParameter("access_key_secret"))
  {
    if |input.accessKeyId| == 0 then (EmptyAccount, Some(MissingParameter("access_key_id")))
    else if |input.accessKeySecret| == 0 then (EmptyAccount, Some(MissingParameter("access_key_secret")))
    else (Cloudaccount(input.accessKeyId, input.accessKeySecret, ""), None)
  }

  /** Creating is stricter than updating: whatever passes the create check
      passes the update check with the same key id and secret. */
  lemma CreateAcceptedImpliesUpdateAccepted(input: Credential)
    requires ValidateCreate(input).1.None?
    ensures ValidateUpdate(input).1.None?
    ensures ValidateUpdate(input).0.account == ValidateCreate(input).0.account
    ensures ValidateUpdate(input).0.secret == ValidateCreate(input).0.secret
  {
  }

  datatype ProviderInfo = ProviderInfo(account: string, secret: string, url: string)

  /** `GetClientRC`: exactly four variables, the region left empty. */
  function GetClientRC(info: ProviderInfo): (r: map<string, string>)
    ensures r.Keys == {"APSARA_ACCESS_KEY", "APSARA_SECRET", "APSARA_ENDPOINT", "APSARA_REGION"}
    ensures r["APSARA_ACCESS_KEY"] == info.account && r["APSARA_SECRET"] == info.secret
    ensures r["APSARA_ENDPOINT"] == info.url && r["APSARA_REGION"] == ""
  {
    map["APSARA_ACCESS_KEY" := info.account, "APSARA_SECRET" := info.secret,
        "APSARA_ENDPOINT" := info.url, "APSARA_REGION" := ""]
  }

  /** The canned ACLs object storage understands. */
  datatype CannedAcl = AclPrivate | AclPublicRead | AclPublicReadWrite

  /** `GetStorageClasses`: the same three classes for every region. */
  function GetStorageClasses(regionId: string): (r: seq<string>)
    ensures |r| == 3 && r[0] != r[1] && r[1] != r[2] && r[0] != r[2]
    ensures "Standard" in r && "IA" in r && "Archive" in r
  {
    ["Standard", "IA", "Archive"]
  }

  /** `GetBucketCannedAcls` and `GetObjectCannedAcls`: every canned ACL once,
      for every region. */
  function GetCannedAcls(regionId: string): (r: seq<CannedAcl>)
    ensures |r| == 3 && r[0] != r[1] && r[1] != r[2] && r[0] != r[2]
    ensures AclPrivate in r && AclPublicRead in r && AclPublicReadWrite in r
  {
    [AclPrivate, AclPublicRead, AclPublicReadWrite]
  }
}
