/**
 * The bucket registry and bucket URLs of `UntrustedMessageBucketServiceImpl`: a service object
 * holding the shared secret, the URL pattern and the map from bucket keys to buckets.
 */
module MessageBuckets {
  import opened Wrappers
  import opened HexStrings
  import opened Tokens

  /** A mailbox (`MessageBucketImpl`); only its identity matters here. */
  class MessageBucket {
    constructor ()
    {
    }
  }

  /** What the cluster tracking service knows of a tracking cookie's owner. */
  datatype ClusterUser = ClusterUser(user: string, serverId: string)

  /** The parts of the HTTP request the bucket URL is made from. */
  datatype Request = Request(scheme: string, localName: string, localPort: int, remoteUser: Option<string>)

  /** The eight arguments `{0}`..`{7}` substituted into the URL pattern. */
  datatype UrlArguments = UrlArguments(
    scheme: string,
    localName: string,
    localPort: int,
    token: string,
    tokenPrefix1: string,
    tokenPrefix2: string,
    serverId: string,
    remoteUser: Option<string>)

  /** A URL pattern together with the arguments to format it with. */
  datatype BucketUrl = BucketUrl(pattern: string, arguments: UrlArguments)

  const DEFAULT_URL_PATTERN: string :=
    "http://localhost:8080/system/uievent/default?token={3}&server={6}&user={7}"

  /** The owner of the first tracking cookie the cluster knows about, if any. */
  function FirstClusterUser(cookies: seq<string>, getUser: string -> Option<ClusterUser>)
    : (r: Option<ClusterUser>)
    ensures r.None? <==> forall j :: 0 <= j < |cookies| ==> getUser(cookies[j]).None?
  {
    if cookies == [] then None
    else if getUser(cookies[0]).Some? then getUser(cookies[0])
    else FirstClusterUser(cookies[1..], getUser)
  }

  /** The cookie chosen is the first one that resolves: earlier ones resolve to nobody. */
  lemma {:induction false} FirstClusterUserIsFirst(
    cookies: seq<string>, getUser: string -> Option<ClusterUser>, i: nat)
    requires i < |cookies| && getUser(cookies[i]).Some?
    requires forall j :: 0 <= j < i ==> getUser(cookies[j]).None?
    ensures FirstClusterUser(cookies, getUser) == getUser(cookies[i])
  {
    if i > 0 {
      assert cookies[1..][i - 1] == cookies[i];
      FirstClusterUserIsFirst(cookies[1..], getUser, i - 1);
    }
  }

  /** No two keys share a bucket. */
  ghost predicate DistinctBuckets(buckets: map<string, MessageBucket>)
  {
    forall k, k' :: k in buckets && k' in buckets && k != k' ==> buckets[k] != buckets[k']
  }

  class UntrustedMessageBucketService {
    const primitives: Primitives
    var sharedSecret: string
    var urlPattern: string
    var messageBuckets: map<string, MessageBucket>

    ghost predicate Valid()
      reads this
    {
      Lawful(primitives) && DistinctBuckets(messageBuckets)
    }

    /**
     * Construction followed by `activate`: the secret (a clock reading in the service) and
     * the configured `bucketurlpattern` property are given; a missing property means the
     * default pattern.
     */
    constructor Activate(primitives: Primitives, secret: string, configuredPattern: Option<string>)
      requires Lawful(primitives)
      ensures Valid()
      ensures this.primitives == primitives && sharedSecret == secret && messageBuckets == map[]
      ensures urlPattern == if configuredPattern.Some? then configuredPattern.value else DEFAULT_URL_PATTERN
    {
      this.primitives := primitives;
      sharedSecret := secret;
      urlPattern := if configuredPattern.Some? then configuredPattern.value else DEFAULT_URL_PATTERN;
      messageBuckets := map[];
    }

    /**
     * `getBucket`: a `null` token asks for no bucket; a token that does not check out is an
     * error; otherwise the bucket under the token's key, created on first use.
     */
    method GetBucket(token: Option<string>) returns (r: Result<Option<MessageBucket>, MessageBucketException>)
      requires Valid()
      modifies this`messageBuckets
      ensures Valid()
      ensures token.None? ==> r == Success(None) && messageBuckets == old(messageBuckets)
      ensures token.Some? ==>
        match GetKey(primitives, sharedSecret, token)
        case Failure(e) =>
          r == Failure(e) && messageBuckets == old(messageBuckets)
        case Success(None) =>
          r == Failure(InvalidToken(token.value)) && messageBuckets == old(messageBuckets)
        case Success(Some(key)) =>
          && r.Success? && r.value.Some?
          && (key in old(messageBuckets) ==>
                r.value.value == old(messageBuckets)[key] && messageBuckets == old(messageBuckets))
          && (key !in old(messageBuckets) ==>
                fresh(r.value.value) && messageBuckets == old(messageBuckets)[key := r.value.value])
    {
      if token.None? {
        return Success(None);
      }
      match GetKey(primitives, sharedSecret, token)
      case Failure(e) =>
        return Failure(e);
      case Success(None) =>
        return Failure(InvalidToken(token.value));
      case Success(Some(key)) =>
        if key in messageBuckets {
          return Success(Some(messageBuckets[key]));
        }
        var bucket := new MessageBucket();
        messageBuckets := messageBuckets[key := bucket];
        return Success(Some(bucket));
    }

    /**
     * `getBucketUrl`: the owner of the first tracking cookie the cluster resolves gets a
     * token for `context`, and the URL pattern is paired with its eight arguments. The
     * request's tracking cookies (`null` is `None`) and the cluster's cookie lookup are given.
     */
    method GetBucketUrl(
      request: Request, trackingCookies: Option<seq<string>>,
      getUser: string -> Option<ClusterUser>, context: string, nowMillis: int64)
      returns (r: Result<BucketUrl, MessageBucketException>)
      requires Lawful(primitives)
      ensures trackingCookies.None? ==> r == Failure(NoClusterTracking)
      ensures trackingCookies.Some? ==>
        match FirstClusterUser(trackingCookies.value, getUser)
        case None => r == Failure(NoClusterTracking)
        case Some(clusterUser) =>
          match GetToken(primitives, sharedSecret, clusterUser.user, context, nowMillis)
          case Failure(e) => r == Failure(e)
          case Success(token) =>
            && |token| >= 2
            && r == Success(BucketUrl(urlPattern, UrlArguments(
                 request.scheme, request.localName, request.localPort,
                 token, token[..1], token[..2], clusterUser.serverId, request.remoteUser)))
    {
      if trackingCookies.None? {
        return Failure(NoClusterTracking);
      }
      var cookies := trackingCookies.value;
      for i := 0 to |cookies|
        invariant FirstClusterUser(cookies, getUser) == FirstClusterUser(cookies[i..], getUser)
      {
        assert cookies[i..][1..] == cookies[i + 1..];
        var clusterUser := getUser(cookies[i]);
        if clusterUser.Some? {
          match GetToken(primitives, sharedSecret, clusterUser.value.user, context, nowMillis)
          case Failure(e) =>
            return Failure(e);
          case Success(token) =>
            return Success(BucketUrl(urlPattern, UrlArguments(
              request.scheme, request.localName, request.localPort,
              token, token[..1], token[..2], clusterUser.value.serverId, request.remoteUser)));
        }
      }
      return Failure(NoClusterTracking);
    }
  }

  /**
   * Reconnecting: two tokens minted at different times for one user and context open the
   * same bucket, and the second lookup creates nothing.
   */
  method ReconnectReusesBucket(
    service: UntrustedMessageBucketService, userId: string, context: string, first: int64, second: int64)
    returns (bucket: MessageBucket, again: MessageBucket)
    requires service.Valid() && IsField(userId) && IsField(context)
    requires GetToken(service.primitives, service.sharedSecret, userId, context, first).Success?
    requires GetToken(service.primitives, service.sharedSecret, userId, context, second).Success?
    modifies service`messageBuckets
    ensures service.Valid()
    ensures bucket == again
    ensures service.messageBuckets == old(service.messageBuckets)[BucketKey(userId, context) := bucket]
    ensures BucketKey(userId, context) in old(service.messageBuckets) ==>
      bucket == old(service.messageBuckets)[BucketKey(userId, context)]
    ensures BucketKey(userId, context) !in old(service.messageBuckets) ==> fresh(bucket)
  {
    var p, secret := service.primitives, service.sharedSecret;
    var firstToken := GetToken(p, secret, userId, context, first).value;
    var secondToken := GetToken(p, secret, userId, context, second).value;
    RoundTrip(p, secret, userId, context, first);
    RoundTrip(p, secret, userId, context, second);
    bucket, again := GetBucketTwice(service, firstToken, secondToken, BucketKey(userId, context));
  }

  /** Two `getBucket` calls with tokens that carry the same key. */
  method GetBucketTwice(
    service: UntrustedMessageBucketService, firstToken: string, secondToken: string, key: string)
    returns (bucket: MessageBucket, again: MessageBucket)
    requires service.Valid()
    requires GetKey(service.primitives, service.sharedSecret, Some(firstToken)) == Success(Some(key))
    requires GetKey(service.primitives, service.sharedSecret, Some(secondToken)) == Success(Some(key))
    modifies service`messageBuckets
    ensures service.Valid()
    ensures bucket == again
    ensures service.messageBuckets == old(service.messageBuckets)[key := bucket]
    ensures key in old(service.messageBuckets) ==> bucket == old(service.messageBuckets)[key]
    ensures key !in old(service.messageBuckets) ==> fresh(bucket)
  {
    ghost var before := service.messageBuckets;
    var r1 := service.GetBucket(Some(firstToken));
    assert r1.Success? && r1.value.Some?;
    bucket := r1.value.value;
    assert service.messageBuckets == before[key := bucket];
    ghost var middle := service.messageBuckets;
    assert key in middle && middle[key] == bucket;
    var r2 := service.GetBucket(Some(secondToken));
    assert r2.Success? && r2.value.Some?;
    again := r2.value.value;
    assert again == middle[key] && service.messageBuckets == middle;
  }
}
