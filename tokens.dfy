/**
 * The capability tokens of the untrusted message-bucket service.
 *
 * A token is `base64url(utf8(userId ";" timestamp ";" context ";" hmac))`, where `hmac` is
 * the RFC 2104 keyed hash of `userId ";" timestamp ";" context` under the service's shared
 * secret. Checking a token recovers the bucket key `userId "-" context`.
 */
module Tokens {
  import opened Wrappers
  import opened StringSplit
  import opened HexStrings

  /** Field separator inside a decoded token. */
  const SEP: char := ';'

  /** Number of fields a decoded token must split into. */
  const TOKEN_PARTS_LENGTH: nat := 4

  /**
   * The foreign library calls the token code relies on.
   * - `encode`: `Base64.encodeBase64URLSafeString(s.getBytes("UTF8"))`
   * - `decode`: `new String(Base64.decodeBase64(t), "UTF8")`; commons-codec decoding is
   *   lenient, so this never fails, it only yields garbage for a malformed token
   * - `hmac`: `Signature.calculateRFC2104HMAC(data, key)`; `None` is a `SignatureException`
   */
  datatype Primitives = Primitives(
    encode: string -> string,
    decode: string -> string,
    hmac: (string, string) -> Option<string>)

  /**
   * What the model assumes of those calls: decoding undoes encoding, an encoding is never
   * shorter than its input (UTF-8 then Base64 only lengthen), and a signature is a
   * non-empty string without the field separator (a Base64 rendering of the digest).
   */
  ghost predicate Lawful(p: Primitives)
  {
    && (forall s :: p.decode(p.encode(s)) == s)
    && (forall s :: |p.encode(s)| >= |s|)
    && (forall m, k :: p.hmac(m, k).Some? ==> IsField(p.hmac(m, k).value))
  }

  /** A value that survives the trip through the token as one field. */
  predicate IsField(s: string)
  {
    s != [] && SEP !in s
  }

  /** The errors `MessageBucketException` reports in this core. */
  datatype MessageBucketException =
    | InvalidToken(token: string)  // "Invalid Token " + token
    | SignatureFailure             // a wrapped SignatureException
    | NoClusterTracking            // "No Cluster tracking is available"

  /**
   * The signed part of a token. Three well-formed fields, joined and followed by a
   * separator and a signature, come back out of `getKey`'s limited split unchanged.
   */
  function Payload(userId: string, timeStamp: string, context: string): (payload: string)
    ensures IsField(userId) && IsField(timeStamp) && IsField(context) ==>
      forall signature :: IsPart(signature, SEP) ==>
        Split(payload + [SEP] + signature, SEP, TOKEN_PARTS_LENGTH) == [userId, timeStamp, context, signature]
  {
    var payload := userId + [SEP] + timeStamp + [SEP] + context;
    PayloadFields(userId, timeStamp, context, payload);
    payload
  }

  lemma PayloadFields(userId: string, timeStamp: string, context: string, payload: string)
    requires payload == userId + [SEP] + timeStamp + [SEP] + context
    ensures IsField(userId) && IsField(timeStamp) && IsField(context) ==>
      forall signature :: IsPart(signature, SEP) ==>
        Split(payload + [SEP] + signature, SEP, TOKEN_PARTS_LENGTH) == [userId, timeStamp, context, signature]
  {
    if IsField(userId) && IsField(timeStamp) && IsField(context) {
      forall signature | IsPart(signature, SEP)
        ensures Split(payload + [SEP] + signature, SEP, TOKEN_PARTS_LENGTH) == [userId, timeStamp, context, signature]
      {
        SplitFourFields(userId, timeStamp, context, signature, SEP);
      }
    }
  }

  /**
   * The key of the bucket a token opens: the user id, a '-', then the context, so both
   * can be read back at known positions.
   */
  function BucketKey(userId: string, context: string): (key: string)
    ensures |key| == |userId| + 1 + |context|
    ensures key[..|userId|] == userId && key[|userId|] == '-' && key[|userId| + 1..] == context
  {
    userId + "-" + context
  }

  /**
   * `getToken`: mint a token for `userId` in `context` at clock reading `nowMillis`.
   * The only failure is the signer's.
   */
  function GetToken(p: Primitives, secret: string, userId: string, context: string, nowMillis: int64)
    : (r: Result<string, MessageBucketException>)
    ensures r.Failure? <==> p.hmac(Payload(userId, ToHexString(nowMillis), context), secret).None?
    ensures r.Failure? ==> r.error == SignatureFailure
    ensures Lawful(p) && r.Success? ==>
      var payload := Payload(userId, ToHexString(nowMillis), context);
      var signature := p.hmac(payload, secret).value;
      && p.decode(r.value) == payload + [SEP] + signature
      && |r.value| >= |payload| + 2
  {
    var timeStamp := ToHexString(nowMillis);
    var payload := Payload(userId, timeStamp, context);
    match p.hmac(payload, secret)
    case None => Failure(SignatureFailure)
    case Some(signature) => Success(p.encode(payload + [SEP] + signature))
  }

  /** The fields of a token, as `getKey` cuts them. */
  function TokenParts(p: Primitives, token: string): (parts: seq<string>)
    ensures |parts| <= TOKEN_PARTS_LENGTH
    ensures forall i :: 0 <= i < |parts| && i < TOKEN_PARTS_LENGTH - 1 ==> IsField(parts[i])
  {
    var parts := Split(p.decode(token), SEP, TOKEN_PARTS_LENGTH);
    WellFormedPartsAt(parts, SEP, TOKEN_PARTS_LENGTH);
    parts
  }

  /**
   * `getKey`: check a token and return the key of its bucket. A `null` token and a token
   * that does not check out both give `None`; only the signer can make it fail.
   */
  function GetKey(p: Primitives, secret: string, token: Option<string>)
    : (r: Result<Option<string>, MessageBucketException>)
    ensures token.None? ==> r == Success(None)
    ensures r.Failure? ==> r.error == SignatureFailure
    ensures r.Failure? <==>
      && token.Some? && |TokenParts(p, token.value)| == TOKEN_PARTS_LENGTH
      && var parts := TokenParts(p, token.value);
         p.hmac(Payload(parts[0], parts[1], parts[2]), secret).None?
    ensures token.Some? && |TokenParts(p, token.value)| != TOKEN_PARTS_LENGTH ==> r == Success(None)
    ensures token.Some? && |TokenParts(p, token.value)| == TOKEN_PARTS_LENGTH ==>
      var parts := TokenParts(p, token.value);
      (r.Success? && r.value.Some?) <==>
        p.hmac(Payload(parts[0], parts[1], parts[2]), secret) == Some(parts[3])
    ensures r.Success? && r.value.Some? ==>
      exists userId, timeStamp, context, signature ::
        && TokenParts(p, token.value) == [userId, timeStamp, context, signature]
        && IsField(userId) && IsField(timeStamp) && IsField(context)
        && p.hmac(Payload(userId, timeStamp, context), secret) == Some(signature)
        && r.value.value == BucketKey(userId, context)
  {
    match token
    case None => Success(None)
    case Some(t) =>
      var parts := TokenParts(p, t);
      if |parts| != TOKEN_PARTS_LENGTH then Success(None)
      else
        assert parts == [parts[0], parts[1], parts[2], parts[3]];
        match p.hmac(Payload(parts[0], parts[1], parts[2]), secret)
        case None => Failure(SignatureFailure)
        case Some(signature) =>
          if signature == parts[3] then Success(Some(BucketKey(parts[0], parts[2])))
          else Success(None)
  }

  /**
   * A token whose decoded text is three well-formed fields and a signature is accepted
   * exactly when the signature is the one the secret gives for those fields, and then
   * opens the bucket of its user and context.
   */
  lemma GetKeyAcceptsExactlySigned(
    p: Primitives, secret: string, userId: string, timeStamp: string, context: string,
    signature: string, token: string)
    requires IsField(userId) && IsField(timeStamp) && IsField(context) && IsPart(signature, SEP)
    requires p.decode(token) == Payload(userId, timeStamp, context) + [SEP] + signature
    ensures GetKey(p, secret, Some(token)) ==
      match p.hmac(Payload(userId, timeStamp, context), secret)
      case None => Failure(SignatureFailure)
      case Some(expected) =>
        if expected == signature then Success(Some(BucketKey(userId, context))) else Success(None)
  {
    // the decoded text splits back into its four fields by `Payload`'s contract
  }

  /** Round trip: the key of a freshly minted token is its user's key in its context. */
  lemma RoundTrip(p: Primitives, secret: string, userId: string, context: string, nowMillis: int64)
    requires Lawful(p) && IsField(userId) && IsField(context)
    requires GetToken(p, secret, userId, context, nowMillis).Success?
    ensures GetKey(p, secret, Some(GetToken(p, secret, userId, context, nowMillis).value))
      == Success(Some(BucketKey(userId, context)))
  {
    var timeStamp := ToHexString(nowMillis);
    var signature := p.hmac(Payload(userId, timeStamp, context), secret).value;
    GetKeyAcceptsExactlySigned(p, secret, userId, timeStamp, context, signature,
      GetToken(p, secret, userId, context, nowMillis).value);
  }

  /**
   * The timestamp does not enter the key: tokens minted at different times for the same
   * user and context open the same bucket.
   */
  lemma KeyIndependentOfTimestamp(
    p: Primitives, secret: string, userId: string, context: string, first: int64, second: int64)
    requires Lawful(p) && IsField(userId) && IsField(context)
    requires GetToken(p, secret, userId, context, first).Success?
    requires GetToken(p, secret, userId, context, second).Success?
    ensures var key := GetKey(p, secret, Some(GetToken(p, secret, userId, context, first).value));
      && key == GetKey(p, secret, Some(GetToken(p, secret, userId, context, second).value))
      && key.Success? && key.value.Some?
  {
    RoundTrip(p, secret, userId, context, first);
    RoundTrip(p, secret, userId, context, second);
  }

  /**
   * A token minted under one secret opens nothing under another secret whose signature
   * of the same fields differs.
   */
  lemma WrongSecretRejected(
    p: Primitives, minted: string, checking: string, userId: string, context: string, nowMillis: int64)
    requires Lawful(p) && IsField(userId) && IsField(context)
    requires GetToken(p, minted, userId, context, nowMillis).Success?
    requires var payload := Payload(userId, ToHexString(nowMillis), context);
      p.hmac(payload, checking) != p.hmac(payload, minted)
    ensures var key := GetKey(p, checking, Some(GetToken(p, minted, userId, context, nowMillis).value));
      !(key.Success? && key.value.Some?)
  {
    var timeStamp := ToHexString(nowMillis);
    var signature := p.hmac(Payload(userId, timeStamp, context), minted).value;
    GetKeyAcceptsExactlySigned(p, checking, userId, timeStamp, context, signature,
      GetToken(p, minted, userId, context, nowMillis).value);
  }

  /**
   * An empty user id disappears in the split: the decoded token has three parts only,
   * and the token opens nothing.
   */
  lemma EmptyUserRejected(p: Primitives, secret: string, context: string, nowMillis: int64)
    requires Lawful(p) && IsField(context)
    requires GetToken(p, secret, "", context, nowMillis).Success?
    ensures GetKey(p, secret, Some(GetToken(p, secret, "", context, nowMillis).value)) == Success(None)
  {
    var timeStamp := ToHexString(nowMillis);
    var signature := p.hmac(Payload("", timeStamp, context), secret).value;
    var token := GetToken(p, secret, "", context, nowMillis).value;
    assert p.decode(token) == Payload("", timeStamp, context) + [SEP] + signature;
    SplitWithoutUser(timeStamp, context, signature);
  }

  lemma SplitWithoutUser(timeStamp: string, context: string, signature: string)
    requires IsField(timeStamp) && IsField(context) && IsField(signature)
    ensures |Split(Payload("", timeStamp, context) + [SEP] + signature, SEP, 4)| == 3
  {
    var rest := timeStamp + [SEP] + (context + [SEP] + signature);
    assert Payload("", timeStamp, context) + [SEP] + signature == [SEP] + rest;
    SplitSkipsSeparator(rest, SEP, 4);
    SplitField(timeStamp, context + [SEP] + signature, SEP, 4);
    SplitField(context, signature, SEP, 3);
    SplitOneField(signature, SEP, 2);
  }

  /** Likewise an empty context: the token opens nothing. */
  lemma EmptyContextRejected(p: Primitives, secret: string, userId: string, nowMillis: int64)
    requires Lawful(p) && IsField(userId)
    requires GetToken(p, secret, userId, "", nowMillis).Success?
    ensures GetKey(p, secret, Some(GetToken(p, secret, userId, "", nowMillis).value)) == Success(None)
  {
    var timeStamp := ToHexString(nowMillis);
    var signature := p.hmac(Payload(userId, timeStamp, ""), secret).value;
    var token := GetToken(p, secret, userId, "", nowMillis).value;
    assert p.decode(token) == Payload(userId, timeStamp, "") + [SEP] + signature;
    SplitWithoutContext(userId, timeStamp, signature);
  }

  lemma SplitWithoutContext(userId: string, timeStamp: string, signature: string)
    requires IsField(userId) && IsField(timeStamp) && IsField(signature)
    ensures |Split(Payload(userId, timeStamp, "") + [SEP] + signature, SEP, 4)| == 3
  {
    var rest := timeStamp + [SEP] + ([SEP] + signature);
    assert Payload(userId, timeStamp, "") + [SEP] + signature == userId + [SEP] + rest;
    SplitField(userId, rest, SEP, 4);
    SplitField(timeStamp, [SEP] + signature, SEP, 3);
    SplitSkipsSeparator(signature, SEP, 2);
    SplitOneField(signature, SEP, 2);
  }

  /**
   * A context that itself holds the separator is not preserved: the split puts its tail
   * in front of the signature, and the token opens nothing.
   */
  lemma ContextWithSeparatorRejected(
    p: Primitives, secret: string, userId: string, head: string, tail: string, nowMillis: int64)
    requires Lawful(p) && IsField(userId) && IsField(head) && IsPart(tail, SEP)
    requires GetToken(p, secret, userId, head + [SEP] + tail, nowMillis).Success?
    ensures var key := GetKey(p, secret, Some(GetToken(p, secret, userId, head + [SEP] + tail, nowMillis).value));
      !(key.Success? && key.value.Some?)
  {
    var timeStamp := ToHexString(nowMillis);
    var signature := p.hmac(Payload(userId, timeStamp, head + [SEP] + tail), secret).value;
    var token := GetToken(p, secret, userId, head + [SEP] + tail, nowMillis).value;
    assert p.decode(token) == Payload(userId, timeStamp, head + [SEP] + tail) + [SEP] + signature;
    SplitContextWithSeparator(userId, timeStamp, head, tail, signature);
    assert (tail + [SEP] + signature)[|tail|] == SEP;
    SeparatorInSignatureRejected(p, secret, token);
  }

  /** A fourth part holding the separator can never be a signature. */
  lemma SeparatorInSignatureRejected(p: Primitives, secret: string, token: string)
    requires Lawful(p)
    requires |TokenParts(p, token)| == TOKEN_PARTS_LENGTH && SEP in TokenParts(p, token)[3]
    ensures var key := GetKey(p, secret, Some(token)); !(key.Success? && key.value.Some?)
  {
  }

  /**
   * A context ending in the separator is cut to the context without it: the split
   * swallows the doubled separator, so the token is checked as one for `head` and, if
   * accepted, opens `head`'s bucket. It is accepted exactly when the secret signs both
   * payloads alike.
   */
  lemma ContextWithTrailingSeparatorCut(
    p: Primitives, secret: string, userId: string, head: string, nowMillis: int64)
    requires Lawful(p) && IsField(userId) && IsField(head)
    requires GetToken(p, secret, userId, head + [SEP], nowMillis).Success?
    ensures var key := GetKey(p, secret, Some(GetToken(p, secret, userId, head + [SEP], nowMillis).value));
      var timeStamp := ToHexString(nowMillis);
      && ((key.Success? && key.value.Some?) <==>
            p.hmac(Payload(userId, timeStamp, head), secret)
              == p.hmac(Payload(userId, timeStamp, head + [SEP]), secret))
      && (key.Success? && key.value.Some? ==> key.value.value == BucketKey(userId, head))
  {
    var timeStamp := ToHexString(nowMillis);
    var signature := p.hmac(Payload(userId, timeStamp, head + [SEP]), secret).value;
    var token := GetToken(p, secret, userId, head + [SEP], nowMillis).value;
    assert p.decode(token) == userId + [SEP] + timeStamp + [SEP] + head + [SEP] + [SEP] + signature;
    SplitContextWithTrailingSeparator(userId, timeStamp, head, signature);
  }

  lemma SplitContextWithTrailingSeparator(
    userId: string, timeStamp: string, head: string, signature: string)
    requires IsField(userId) && IsField(timeStamp) && IsField(head) && IsField(signature)
    ensures Split(userId + [SEP] + timeStamp + [SEP] + head + [SEP] + [SEP] + signature, SEP, 4)
      == [userId, timeStamp, head, signature]
  {
    var rest := timeStamp + [SEP] + (head + [SEP] + ([SEP] + signature));
    assert userId + [SEP] + timeStamp + [SEP] + head + [SEP] + [SEP] + signature == userId + [SEP] + rest;
    SplitField(userId, rest, SEP, 4);
    SplitField(timeStamp, head + [SEP] + ([SEP] + signature), SEP, 3);
    SplitField(head, [SEP] + signature, SEP, 2);
    SplitSkipsSeparator(signature, SEP, 1);
    SplitOneField(signature, SEP, 1);
  }

  /**
   * Likewise a context starting with the separator is cut to the context without it:
   * the split collapses the doubled separator, so the token for `;tail` is checked as
   * one for `tail` and, if accepted, opens `tail`'s bucket.
   */
  lemma ContextWithLeadingSeparatorCut(
    p: Primitives, secret: string, userId: string, tail: string, nowMillis: int64)
    requires Lawful(p) && IsField(userId) && IsField(tail)
    requires GetToken(p, secret, userId, [SEP] + tail, nowMillis).Success?
    ensures var key := GetKey(p, secret, Some(GetToken(p, secret, userId, [SEP] + tail, nowMillis).value));
      var timeStamp := ToHexString(nowMillis);
      && ((key.Success? && key.value.Some?) <==>
            p.hmac(Payload(userId, timeStamp, tail), secret)
              == p.hmac(Payload(userId, timeStamp, [SEP] + tail), secret))
      && (key.Success? && key.value.Some? ==> key.value.value == BucketKey(userId, tail))
  {
    var timeStamp := ToHexString(nowMillis);
    var signature := p.hmac(Payload(userId, timeStamp, [SEP] + tail), secret).value;
    var token := GetToken(p, secret, userId, [SEP] + tail, nowMillis).value;
    assert p.decode(token) == userId + [SEP] + timeStamp + [SEP] + [SEP] + tail + [SEP] + signature;
    SplitContextWithLeadingSeparator(userId, timeStamp, tail, signature);
  }

  lemma SplitContextWithLeadingSeparator(
    userId: string, timeStamp: string, tail: string, signature: string)
    requires IsField(userId) && IsField(timeStamp) && IsField(tail) && IsField(signature)
    ensures Split(userId + [SEP] + timeStamp + [SEP] + [SEP] + tail + [SEP] + signature, SEP, 4)
      == [userId, timeStamp, tail, signature]
  {
    var rest := timeStamp + [SEP] + ([SEP] + (tail + [SEP] + signature));
    assert userId + [SEP] + timeStamp + [SEP] + [SEP] + tail + [SEP] + signature == userId + [SEP] + rest;
    SplitField(userId, rest, SEP, 4);
    SplitField(timeStamp, [SEP] + (tail + [SEP] + signature), SEP, 3);
    SplitSkipsSeparator(tail + [SEP] + signature, SEP, 2);
    SplitField(tail, signature, SEP, 2);
    SplitOneField(signature, SEP, 1);
  }

  lemma SplitContextWithSeparator(
    userId: string, timeStamp: string, head: string, tail: string, signature: string)
    requires IsField(userId) && IsField(timeStamp) && IsField(head) && IsPart(tail, SEP)
    ensures var parts := Split(Payload(userId, timeStamp, head + [SEP] + tail) + [SEP] + signature, SEP, 4);
      |parts| == 4 && parts[0] == userId && parts[1] == timeStamp && parts[2] == head
      && parts[3] == tail + [SEP] + signature
  {
    var last := tail + [SEP] + signature;
    assert Payload(userId, timeStamp, head + [SEP] + tail) + [SEP] + signature
      == userId + [SEP] + timeStamp + [SEP] + head + [SEP] + last;
    SplitFourFields(userId, timeStamp, head, last, SEP);
  }

  /**
   * Keys are unambiguous as long as user ids contain no '-': equal keys come from equal
   * users and equal contexts.
   */
  lemma BucketKeyInjective(userId: string, context: string, otherUser: string, otherContext: string)
    requires '-' !in userId && '-' !in otherUser
    requires BucketKey(userId, context) == BucketKey(otherUser, otherContext)
    ensures userId == otherUser && context == otherContext
  {
    // the first '-' of the key ends the user id, in both readings
  }

  /**
   * Without that restriction keys collide: user "a-b" in context "c" and user "a" in
   * context "b-c" share one bucket.
   */
  lemma BucketKeyCollision(user: string, middle: string, context: string)
    ensures BucketKey(user + "-" + middle, context) == BucketKey(user, middle + "-" + context)
  {
  }
}
