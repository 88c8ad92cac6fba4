# Untrusted message-bucket tokens and registry

A Dafny model of the core of `UntrustedMessageBucketServiceImpl` in the Sakai Nakamura
presence bundle. The service gives a browser a URL for a message bucket: a server-side
mailbox for asynchronous events. The URL carries a capability token. The model covers:

- **Minting a token (`getToken`).** The token is
  `base64url(utf8(userId ";" timestamp ";" context ";" hmac))`. The timestamp is
  `Long.toHexString` of the clock reading. `hmac` is the RFC 2104 keyed hash of the first
  three fields under the service's shared secret.
- **Checking a token (`getKey`).** The token is decoded and cut with commons-lang
  `StringUtils.split(…, ";", 4)`. The hash of the first three parts is recomputed and
  compared with the fourth. On a match the bucket key is `userId "-" context`; otherwise
  the key is `null`.
- **The bucket registry (`getBucket`).** The service holds a map from keys to buckets and
  does a get-or-create on it.
- **Bucket URLs (`getBucketUrl`).** The owner of the first tracking cookie the cluster
  recognises gets a token. The URL pattern is paired with its eight arguments.

Layout:

- `wrappers.dfy`: `Option` (Java `null`) and `Result` (a thrown exception).
- `string_split.dfy`: the limited split of commons-lang.
- `hex_strings.dfy`: `Long.toHexString`.
- `tokens.dfy`: the token format, `GetToken`, `GetKey` and their properties.
- `message_buckets.dfy`: the service class, with its registry and URL building.

Foreign calls are parameters of the model. Base64 and UTF-8 conversion, and
`Signature.calculateRFC2104HMAC`, are function values in a `Primitives` record. What the
model assumes of them is the predicate `Tokens.Lawful`:

- decoding undoes encoding;
- an encoding is never shorter than its input;
- a signature is non-empty and contains no `;`.

A `SignatureException` is the signer returning `None`. The clock reading is a parameter.
So are the request's tracking cookies and the cluster's cookie-to-user lookup.

Behaviour of the code worth knowing:

- A malformed Base64 token does not fail to decode. commons-codec decoding is lenient and
  never fails, so `decode` is total. A malformed token just yields text that does not
  check out.
- The limited split does not keep a context containing `;` intact. For a context
  `head;tail` whose head is non-empty and free of `;`, and whose tail is non-empty and
  does not start with `;`, the split puts the tail in front of the signature, and the
  token is rejected (`Tokens.ContextWithSeparatorRejected`).
- A context with one `;` at either end, around a non-empty, `;`-free name `h`, is cut to
  that name: `h;` and `;h` are both read back as `h`, because the split collapses the
  doubled `;`. Such a token is accepted, with the key of `h`, exactly when the secret signs
  the payload for the original context and the payload for `h` alike
  (`Tokens.ContextWithTrailingSeparatorCut`, `Tokens.ContextWithLeadingSeparatorCut`). The
  model does not assume that those two signatures differ, so it does not claim that the
  token is rejected. Other contexts with `;` at an end, such as `a;b;` or `;` alone, are
  not covered by these lemmas.
- The split collapses runs of `;` and drops empty fields. So an empty user id or an empty
  context gives a token with three parts, and that token opens nothing
  (`Tokens.EmptyUserRejected`, `Tokens.EmptyContextRejected`).
- The key `userId "-" context` is not injective. User `a-b` in context `c` and user `a` in
  context `b-c` share a bucket (`Tokens.BucketKeyCollision`). It is injective when user ids
  contain no `-` (`Tokens.BucketKeyInjective`).

## Model

| member | source | states |
|---|---|---|
| `StringSplit.Split` | bundles/presence/src/main/java/org/sakaiproject/nakamura/messagebucket/UntrustedMessageBucketServiceImpl.java:114 | The limited split yields at most `max` parts. No part is empty or starts with the separator. Every part before the last allowed one is free of separators. |
| `StringSplit.SplitSkipsSeparator` | bundles/presence/src/main/java/org/sakaiproject/nakamura/messagebucket/UntrustedMessageBucketServiceImpl.java:114 | A leading separator changes nothing: runs of separators collapse and empty fields are dropped. |
| `StringSplit.SplitField` | bundles/presence/src/main/java/org/sakaiproject/nakamura/messagebucket/UntrustedMessageBucketServiceImpl.java:114 | A non-empty, separator-free field followed by a separator becomes one part, and the rest is split with one part fewer allowed. |
| `StringSplit.SplitOneField` | bundles/presence/src/main/java/org/sakaiproject/nakamura/messagebucket/UntrustedMessageBucketServiceImpl.java:114 | A non-empty string without separators splits into itself, whatever the limit. |
| `StringSplit.SplitFourFields` | bundles/presence/src/main/java/org/sakaiproject/nakamura/messagebucket/UntrustedMessageBucketServiceImpl.java:114 | With limit 4, three separator-free fields and a last field that does not start with `;` split back into exactly those four. |
| `HexStrings.HexDigits` | bundles/presence/src/main/java/org/sakaiproject/nakamura/messagebucket/UntrustedMessageBucketServiceImpl.java:96 | The hexadecimal rendering is non-empty and lower-case. It has no leading zero, and it is "0" exactly for zero. |
| `HexStrings.HexValueOfDigits` | bundles/presence/src/main/java/org/sakaiproject/nakamura/messagebucket/UntrustedMessageBucketServiceImpl.java:96 | Reading the digits back gives the number written. |
| `HexStrings.Unsigned` | bundles/presence/src/main/java/org/sakaiproject/nakamura/messagebucket/UntrustedMessageBucketServiceImpl.java:96 | A `long` is read as the number below 2^64 with the same 64 bits. |
| `HexStrings.ToHexString` | bundles/presence/src/main/java/org/sakaiproject/nakamura/messagebucket/UntrustedMessageBucketServiceImpl.java:96 | The timestamp field has 1 to 16 lower-case hex digits, denotes the unsigned clock value, and so never contains `;`. |
| `Tokens.GetToken` | bundles/presence/src/main/java/org/sakaiproject/nakamura/messagebucket/UntrustedMessageBucketServiceImpl.java:93-106 | Minting fails exactly when the signer fails, and then with a signature error. A minted token decodes to `userId;timestamp;context;hmac`, where hmac is the signature of the first three fields, and the token is longer than that payload. |
| `Tokens.Payload` | bundles/presence/src/main/java/org/sakaiproject/nakamura/messagebucket/UntrustedMessageBucketServiceImpl.java:97-98 | The signed payload joins user, timestamp and context with `;`. When all three are non-empty and `;`-free, the payload followed by `;` and any signature that is non-empty and does not start with `;` comes back out of the limit-4 split as exactly those four parts. |
| `Tokens.TokenParts` | bundles/presence/src/main/java/org/sakaiproject/nakamura/messagebucket/UntrustedMessageBucketServiceImpl.java:113-114 | The decoded token is cut into at most 4 parts, and each of the first three is non-empty and free of `;`. |
| `Tokens.BucketKey` | bundles/presence/src/main/java/org/sakaiproject/nakamura/messagebucket/UntrustedMessageBucketServiceImpl.java:119 | The key is the user id, a `-`, then the context: its length is the sum plus one, and both fields can be read back at their positions. |
| `Tokens.GetKey` | bundles/presence/src/main/java/org/sakaiproject/nakamura/messagebucket/UntrustedMessageBucketServiceImpl.java:108-129 | A `null` token gives a `null` key without error. A decoded token that does not split into 4 parts gives `null`. Checking fails, always with a signature error, exactly when there are 4 parts and the signer returns nothing for the first three. With 4 parts, a key is returned if and only if the secret's signature of the first three parts equals the fourth, so a mismatch gives `null`. Any key returned is `user-context` for the user and context of a token whose four parts are three well-formed fields and the secret's signature of them. |
| `Tokens.GetKeyAcceptsExactlySigned` | bundles/presence/src/main/java/org/sakaiproject/nakamura/messagebucket/UntrustedMessageBucketServiceImpl.java:113-120 | For a token that decodes to three well-formed fields and a signature, the token opens the bucket `user-context` if and only if the signature is the secret's signature of those fields. Otherwise the key is `null`, or the check fails if the signer does. This covers a tampered payload and a tampered signature. |
| `Tokens.RoundTrip` | bundles/presence/src/main/java/org/sakaiproject/nakamura/messagebucket/UntrustedMessageBucketServiceImpl.java:96-119 | Checking a freshly minted token for a non-empty, `;`-free user and context yields the key `user-context`. |
| `Tokens.KeyIndependentOfTimestamp` | bundles/presence/src/main/java/org/sakaiproject/nakamura/messagebucket/UntrustedMessageBucketServiceImpl.java:119 | Tokens minted at two different times for the same user and context yield the same, non-null key. |
| `Tokens.WrongSecretRejected` | bundles/presence/src/main/java/org/sakaiproject/nakamura/messagebucket/UntrustedMessageBucketServiceImpl.java:116-120 | A token minted under one secret yields no key under a secret whose signature of the same fields differs. |
| `Tokens.EmptyUserRejected` | bundles/presence/src/main/java/org/sakaiproject/nakamura/messagebucket/UntrustedMessageBucketServiceImpl.java:114-115 | A token minted for an empty user id splits into three parts and yields a `null` key. |
| `Tokens.SplitWithoutUser` | bundles/presence/src/main/java/org/sakaiproject/nakamura/messagebucket/UntrustedMessageBucketServiceImpl.java:114 | With an empty user id, the decoded token splits into three parts. |
| `Tokens.EmptyContextRejected` | bundles/presence/src/main/java/org/sakaiproject/nakamura/messagebucket/UntrustedMessageBucketServiceImpl.java:114-115 | A token minted for an empty context splits into three parts and yields a `null` key. |
| `Tokens.SplitWithoutContext` | bundles/presence/src/main/java/org/sakaiproject/nakamura/messagebucket/UntrustedMessageBucketServiceImpl.java:114 | With an empty context, the decoded token splits into three parts. |
| `Tokens.ContextWithSeparatorRejected` | bundles/presence/src/main/java/org/sakaiproject/nakamura/messagebucket/UntrustedMessageBucketServiceImpl.java:114-120 | A token minted for a context `head;tail`, with a non-empty, `;`-free head and a non-empty tail that does not start with `;`, yields no key. The fourth part becomes `tail;hmac`, which no signature equals. |
| `Tokens.SplitContextWithSeparator` | bundles/presence/src/main/java/org/sakaiproject/nakamura/messagebucket/UntrustedMessageBucketServiceImpl.java:114 | For a context `head;tail`, the parts are the user, the timestamp, `head` and `tail;hmac`. |
| `Tokens.ContextWithTrailingSeparatorCut` | bundles/presence/src/main/java/org/sakaiproject/nakamura/messagebucket/UntrustedMessageBucketServiceImpl.java:114-120 | For a non-empty, `;`-free `h`, a token minted for the context `h;` is read as a token for `h`: it opens `h`'s bucket if and only if the secret's signatures of the payloads for `h` and `h;` are equal. |
| `Tokens.SplitContextWithTrailingSeparator` | bundles/presence/src/main/java/org/sakaiproject/nakamura/messagebucket/UntrustedMessageBucketServiceImpl.java:114 | With a context `h;`, the decoded token splits into the user, the timestamp, `h` and the signature. |
| `Tokens.ContextWithLeadingSeparatorCut` | bundles/presence/src/main/java/org/sakaiproject/nakamura/messagebucket/UntrustedMessageBucketServiceImpl.java:114-120 | For a non-empty, `;`-free `h`, a token minted for the context `;h` is read as a token for `h`: it opens `h`'s bucket if and only if the secret's signatures of the payloads for `h` and `;h` are equal. |
| `Tokens.SplitContextWithLeadingSeparator` | bundles/presence/src/main/java/org/sakaiproject/nakamura/messagebucket/UntrustedMessageBucketServiceImpl.java:114 | With a context `;h`, the decoded token splits into the user, the timestamp, `h` and the signature. |
| `Tokens.SeparatorInSignatureRejected` | bundles/presence/src/main/java/org/sakaiproject/nakamura/messagebucket/UntrustedMessageBucketServiceImpl.java:116-120 | A fourth part containing `;` never matches the recomputed signature, so the token yields no key. |
| `Tokens.BucketKeyInjective` | bundles/presence/src/main/java/org/sakaiproject/nakamura/messagebucket/UntrustedMessageBucketServiceImpl.java:119 | When user ids contain no `-`, equal keys come from equal users and equal contexts. |
| `Tokens.BucketKeyCollision` | bundles/presence/src/main/java/org/sakaiproject/nakamura/messagebucket/UntrustedMessageBucketServiceImpl.java:119 | Without that restriction keys collide: user `u-m` in context `c` and user `u` in context `m-c` get the same key. |
| `MessageBuckets.FirstClusterUser` | bundles/presence/src/main/java/org/sakaiproject/nakamura/messagebucket/UntrustedMessageBucketServiceImpl.java:134-137 | No user is found exactly when no tracking cookie resolves to a cluster user. |
| `MessageBuckets.FirstClusterUserIsFirst` | bundles/presence/src/main/java/org/sakaiproject/nakamura/messagebucket/UntrustedMessageBucketServiceImpl.java:135-138 | The user chosen belongs to the first cookie that resolves: every earlier cookie resolves to nobody. |
| `MessageBuckets.UntrustedMessageBucketService.Activate` | bundles/presence/src/main/java/org/sakaiproject/nakamura/messagebucket/UntrustedMessageBucketServiceImpl.java:63-69 | Activation sets the shared secret and the configured URL pattern. A missing property means the default pattern. The registry starts empty and the invariant holds. |
| `MessageBuckets.UntrustedMessageBucketService.GetBucket` | bundles/presence/src/main/java/org/sakaiproject/nakamura/messagebucket/UntrustedMessageBucketServiceImpl.java:76-91 | A `null` token gives no bucket and leaves the map alone. An invalid token raises `InvalidToken` and leaves the map alone; a signer failure is passed on. A valid token returns the existing bucket for its key with the map unchanged. Otherwise it inserts one fresh bucket under that key, leaves every other key untouched, and returns it. No two keys ever share a bucket. |
| `MessageBuckets.UntrustedMessageBucketService.GetBucketUrl` | bundles/presence/src/main/java/org/sakaiproject/nakamura/messagebucket/UntrustedMessageBucketServiceImpl.java:131-152 | A `null` cookie array, or no resolving cookie, raises "No Cluster tracking is available". Otherwise the first resolving cookie's user gets a token, and the arguments are scheme, local name, local port, token, `token[0..1]`, `token[0..2]`, that user's server id and the remote user. A signer failure is passed on. |
| `MessageBuckets.ReconnectReusesBucket` | bundles/presence/src/main/java/org/sakaiproject/nakamura/messagebucket/UntrustedMessageBucketServiceImpl.java:80-88 | Two tokens minted at different times for one user and context get the same bucket. The new map is the old one with the user's key bound to that bucket. If the key was already present, the bucket is the one stored before; otherwise it is a fresh bucket. |

## Left out

- Concurrency. `messageBuckets` is a `ConcurrentHashMap`, but the get-then-put in
  `getBucket` is check-then-act and not atomic. The model is sequential and claims no
  atomicity: two concurrent first requests could each create a bucket.
- `activate` reads the wall clock for the secret and the OSGi properties for the pattern.
  Both are parameters of `Activate`, and the property value is modelled as an optional
  string.
- The HMAC, Base64 and UTF-8 conversions are foreign. The model uses only the laws in
  `Tokens.Lawful`, and does not claim that HMAC outputs differ for different inputs or keys.
  `Tokens.WrongSecretRejected` assumes the signatures differ. For the same reason, whether a
  token minted for a context `h;` or `;h` is rejected is left open
  (`Tokens.ContextWithTrailingSeparatorCut`, `Tokens.ContextWithLeadingSeparatorCut`).
- `UnsupportedEncodingException` (UTF-8 is always available) is left out. A
  `SignatureException` is one `SignatureFailure` outcome, without the provider's message.
- `MessageFormat.format`, `HttpServletRequest` and `ClusterTrackingService` are foreign or
  I/O. `GetBucketUrl` returns the pattern with its eight arguments instead of the formatted
  URL. The port stays a number instead of its `String.valueOf` text.
- `MessageBucketImpl` internals are not modelled. Its class is not part of this model; a
  bucket is an object with identity only.
- Logging, and `null` user ids or contexts passed to `getToken`, are left out.
- Exception messages are not modelled. `InvalidToken` carries the token, and the other
  errors are plain constructors.
- Token expiry: the code checks no age, and neither does the model.
- Java strings are sequences of UTF-16 code units; the model's strings are sequences of
  Unicode characters. `token[0..1]`, `token[0..2]` and the length law in `Tokens.Lawful`
  would count differently for characters outside the Basic Multilingual Plane. Nothing in
  the core depends on it, because an encoded token is plain ASCII.
