/**
 * The SDK-independent logic of src/awsutils.py: turning a resource's tag
 * list into a dictionary, turning a `describe_regions` response into a list of
 * region names, the region-code table, and the choice between key-pair and
 * profile credentials. The boto3 sessions, resources and clients are
 * represented only by the arguments they would be built from.
 */
module AwsUtils {
  import opened Builtins

  /** One `{'Key': ..., 'Value': ...}` entry of a resource's `tags`. */
  datatype Tag = Tag(key: string, value: string)

  /** The keys occurring in a tag list. */
  function TagKeys(tags: seq<Tag>): set<string> {
    set i | 0 <= i < |tags| :: tags[i].key
  }

  /**
   * The dictionary that assigning `tags[0]`, `tags[1]`, ... in turn produces:
   * a later tag overwrites an earlier one with the same key.
   */
  function TagMap(tags: seq<Tag>): map<string, string>
    decreases |tags|
  {
    if tags == [] then map[]
    else
      var last := tags[|tags| - 1];
      TagMap(tags[..|tags| - 1])[last.key := last.value]
  }

  /** The dictionary has exactly the keys of the tag list. */
  lemma {:induction false} TagMapKeys(tags: seq<Tag>)
    ensures TagMap(tags).Keys == TagKeys(tags)
    decreases |tags|
  {
    if tags != [] {
      var init := tags[..|tags| - 1];
      TagMapKeys(init);
      assert TagKeys(tags) == TagKeys(init) + {tags[|tags| - 1].key} by {
        forall k | k in TagKeys(tags) ensures k in TagKeys(init) + {tags[|tags| - 1].key} {
          var i :| 0 <= i < |tags| && tags[i].key == k;
          if i < |tags| - 1 {
            assert init[i] == tags[i];
          }
        }
        forall k | k in TagKeys(init) ensures k in TagKeys(tags) {
          var i :| 0 <= i < |init| && init[i].key == k;
          assert tags[i] == init[i];
        }
      }
    }
  }

  /**
   * For a key that occurs several times, the value kept is that of the last
   * tag carrying it.
   */
  lemma {:induction false} TagMapLastWins(tags: seq<Tag>, i: nat)
    requires i < |tags|
    requires forall j :: i < j < |tags| ==> tags[j].key != tags[i].key
    ensures tags[i].key in TagMap(tags)
    ensures TagMap(tags)[tags[i].key] == tags[i].value
    decreases |tags|
  {
    if i < |tags| - 1 {
      var init := tags[..|tags| - 1];
      assert init[i] == tags[i];
      TagMapLastWins(init, i);
    }
  }

  /** `tags_to_map(resource)`, given `resource.tags` (`None` when the resource has no tags). */
  method TagsToMap(tags: Option<seq<Tag>>) returns (tagHash: map<string, string>)
    ensures tags.None? ==> tagHash == map[]
    ensures tags.Some? ==> tagHash == TagMap(tags.value)
    ensures tags.Some? ==> tagHash.Keys == TagKeys(tags.value)
  {
    tagHash := map[];
    if tags.None? {
      return;
    }
    var rtags := tags.value;
    var n := 0;
    while n < |rtags|
      invariant n <= |rtags|
      invariant tagHash == TagMap(rtags[..n])
    {
      assert rtags[..n + 1][..n] == rtags[..n];
      tagHash := tagHash[rtags[n].key := rtags[n].value];
      n := n + 1;
    }
    assert rtags[..n] == rtags;
    TagMapKeys(rtags);
  }

  /** One entry of a `describe_regions` response's `Regions` list. */
  datatype RegionItem = RegionItem(regionName: string, endpoint: string)

  /** `get_regions(session)`: the `RegionName` of every entry of the response, in order. */
  method GetRegions(regions: seq<RegionItem>) returns (regionList: seq<string>)
    ensures |regionList| == |regions|
    ensures forall i :: 0 <= i < |regions| ==> regionList[i] == regions[i].regionName
  {
    regionList := [];
    var n := 0;
    while n < |regions|
      invariant n <= |regions|
      invariant |regionList| == n
      invariant forall i :: 0 <= i < n ==> regionList[i] == regions[i].regionName
    {
      regionList := regionList + [regions[n].regionName];
      n := n + 1;
    }
  }

  /** The `credentials` dictionary: a missing value is `None`. */
  datatype Credentials = Credentials(
    profile: Option<string>,
    accessKeyId: Option<string>,
    secretAccessKey: Option<string>)

  /** Python truthiness of an optional string: present and non-empty. */
  predicate Truthy(v: Option<string>) {
    v.Some? && v.value != ""
  }

  /** What a boto3 `Session` is built from. */
  datatype SessionSource =
    | KeyPair(accessKeyId: string, secretAccessKey: string)
    | Profile(profileName: Option<string>)

  /**
   * The credential branch shared by `authenticate` and the first `get_regions`:
   * the key pair is used exactly when both halves are truthy, otherwise the
   * named profile (boto3's default profile when the name is `None`).
   */
  function CredentialPath(creds: Credentials): (r: SessionSource)
    ensures r.KeyPair? <==> Truthy(creds.accessKeyId) && Truthy(creds.secretAccessKey)
    ensures r.KeyPair? ==> r == KeyPair(creds.accessKeyId.value, creds.secretAccessKey.value)
    ensures r.Profile? ==> r.profileName == creds.profile
  {
    if Truthy(creds.accessKeyId) && Truthy(creds.secretAccessKey) then
      KeyPair(creds.accessKeyId.value, creds.secretAccessKey.value)
    else
      Profile(creds.profile)
  }

  /** A resource or client: the session it comes from, its service and its region. */
  datatype Endpoint = Endpoint(session: SessionSource, service: string, region: string)

  /** The pricing API is only served from this region. */
  const PricingRegion := "us-east-1"

  datatype AuthResult =
    | Authenticated(resource: Endpoint, pricingClient: Endpoint, session: SessionSource)
      /** `return resource, pricing_client, session` with `resource` never assigned. */
    | UnboundLocal(variable: string)

  /**
   * `authenticate(region, creds, service)`. Only the profile branch assigns
   * `resource` and `pricing_client`, so the key-pair branch fails on return.
   */
  function Authenticate(region: string, creds: Credentials, service: string := "ec2"): (r: AuthResult)
    ensures r.Authenticated? <==> CredentialPath(creds).Profile?
    ensures r.Authenticated? ==>
              && r.session == Profile(creds.profile)
              && r.resource == Endpoint(r.session, service, region)
              && r.pricingClient == Endpoint(r.session, "pricing", PricingRegion)
    ensures r.UnboundLocal? ==> r.variable == "resource"
  {
    var session := CredentialPath(creds);
    if session.KeyPair? then UnboundLocal("resource")
    else Authenticated(Endpoint(session, service, region), Endpoint(session, "pricing", PricingRegion), session)
  }

  /** The region-code table of `resolve_region`. */
  const RegionNames: map<string, string> := map[
    "ca-central-1" := "Canada (Central)",
    "ap-northeast-3" := "Asia Pacific (Osaka-Local)",
    "us-east-1" := "US East (N. Virginia)",
    "ap-northeast-2" := "Asia Pacific (Seoul)",
    "us-gov-west-1" := "AWS GovCloud (US)",
    "us-east-2" := "US East (Ohio)",
    "ap-northeast-1" := "Asia Pacific (Tokyo)",
    "ap-south-1" := "Asia Pacific (Mumbai)",
    "ap-southeast-2" := "Asia Pacific (Sydney)",
    "ap-southeast-1" := "Asia Pacific (Singapore)",
    "sa-east-1" := "South America (Sao Paulo)",
    "us-west-2" := "US West (Oregon)",
    "eu-west-1" := "EU (Ireland)",
    "eu-west-3" := "EU (Paris)",
    "eu-west-2" := "EU (London)",
    "us-west-1" := "US West (N. California)",
    "eu-central-1" := "EU (Frankfurt)",
    "eu-north-1" := "EU (Stockholm)"
  ]

  /** `resolve_region(region)`; `None` stands for the `KeyError` an unlisted code raises. */
  function ResolveRegion(region: string): (r: Option<string>)
    ensures r.None? <==> region !in RegionNames
    ensures r.Some? ==> r.value == RegionNames[region]
  {
    if region in RegionNames then Some(RegionNames[region]) else None
  }
}

module AwsUtilsFacts {
  import opened Builtins
  import opened AwsUtils

  /** No two listed codes share a name, so a name identifies its code. */
  lemma ResolveRegionInjective(a: string, b: string)
    requires ResolveRegion(a).Some? && ResolveRegion(a) == ResolveRegion(b)
    ensures a == b
  {
  }

  /** Codes are matched exactly: a listed code resolves, an unlisted or re-cased one raises. */
  lemma ResolveRegionExamples()
    ensures ResolveRegion("eu-west-1") == Some("EU (Ireland)")
    ensures ResolveRegion("us-gov-west-1") == Some("AWS GovCloud (US)")
    ensures ResolveRegion("eu-north-1") == Some("EU (Stockholm)")
    ensures ResolveRegion("EU-WEST-1").None?
    ensures ResolveRegion("us-west-3").None?
    ensures ResolveRegion("").None?
  {
  }
}
