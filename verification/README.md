# outlinevpn-api, modelled in Dafny

A model of the two source files of the Outline VPN management-API client:

- `src/fetch.ts`, the certificate-pinned HTTPS call `fetchWithPin` (module `Fetch`, `fetch.dfy`).
  Certificate-authority validation is switched off. On `secureConnect` the peer certificate's
  SHA-256 `fingerprint256` text (`"AB:CD:..."`) has its colons stripped and is hex-decoded.
  The result is turned into a binary (latin1) string and compared with the caller's pin. On a
  mismatch the request emits an `Error` naming both digests and is destroyed. Otherwise the
  response's chunks are gathered in order and joined, and the call yields
  `{status, ok, body}`, where `ok` is true only for a present 2xx status.
- `src/index.ts`, the `OutlineVPN` client (module `Client`, `client.dfy`). Each of its 19
  public methods builds one request: method, `apiUrl` plus a fixed path, and a JSON body
  with its `Content-Type` on PUTs. It then maps the outcome onto the client's tri-state
  convention: `null` without a response, `false` when the response is not ok or does not
  parse, and otherwise the parsed value (`response.ok` for command methods).

`wrappers.dfy` holds `Option` and `Result`. `json.dfy` holds the JavaScript values the client
handles (what `JSON.parse` yields, plus `undefined`), their truthiness and property access.

How the model is shaped:

- The network is a set of inputs. `fetchWithPin` takes the peer's `fingerprint256` text and
  the incoming message: its status code and the finite sequence of chunks its stream yields.
  The client takes `send` and `parse`. `send` stands for `fetchWithPin` called with a
  request and the client's pin: it gives an optional response or the error the call
  rejects with, such as the fingerprint-mismatch error. `parse` maps a body to an
  optional value, where None means `JSON.parse` threw.
- The source's promise is a single-assignment cell, the class `Fetch.PendingRequest`: the
  first settlement wins and later ones are no-ops.
- Aggregation is a method with a loop, as the source's `for await` and `push` are.
- The client's fields are set only in its constructor, so `OutlineVPN` is a datatype and
  its methods are functions.

Behaviour of the code that the model keeps:

- `fetch.ts` compares the pin as a string: the latin1 rendering of the decoded digest.
- `index.ts` passes a `timeout` to `fetchWithPin`, which takes only two parameters and
  ignores it.
- `fetch.ts` writes the request body before the fingerprint check has run. This is timing
  only and is not modelled.
- A rejection of `fetchWithPin`, a fingerprint mismatch included, passes unchanged through
  every client method.
- `getServer` returns `null`, not `false`, for a response that is not ok. A body that does
  not parse makes it reject, because its `JSON.parse` is outside any `try`.
- `getUsers` yields `undefined` when the parsed body has no `accessKeys`.
- `getDataUserUsage` throws a `TypeError` when the usage value is truthy and its
  `bytesTransferredByUserId` is null or missing.

## Model

| member | source | states |
|---|---|---|
| `Fetch.StripColons` | src/fetch.ts:28 | the result holds no ':', is no longer than the input, and is the input itself when that has no ':' |
| `Fetch.StripColonsKeepsOthers` | src/fetch.ts:28 | every character other than ':' is kept with its number of occurrences |
| `Fetch.StripColonsAppend` | src/fetch.ts:28 | stripping distributes over concatenation, so the kept characters stay in order |
| `Fetch.HexDecode` | src/fetch.ts:29 | byte i is the value of hex pair i; decoding stops exactly at the first pair that is not two hex digits, and an odd last digit is dropped |
| `Fetch.Latin1` | src/fetch.ts:29 | `toString('binary')`: one character per byte, with the byte's code |
| `Fetch.Latin1Injective` | src/fetch.ts:29-30 | distinct digests give distinct binary strings, so string comparison is byte comparison |
| `Fetch.Normalize` | src/fetch.ts:26-29 | the binary digest is at most half as long as the fingerprint text |
| `Fetch.Verify` | src/fetch.ts:30-37 | Match exactly when the normalised peer digest equals the pin; a Mismatch carries the pin and the observed digest |
| `Fetch.MismatchError` | src/fetch.ts:31-34 | the error message begins with the fixed prefix, then holds the expected digest, and ends with the observed one |
| `Fetch.StripColonHex` | src/fetch.ts:28 | stripping the colon-delimited form of a digest leaves its plain hex pairs |
| `Fetch.HexPairDecodes` | src/fetch.ts:29 | the two upper-case hex digits of a byte decode to that byte |
| `Fetch.HexDecodeHexString` | src/fetch.ts:29 | decoding the hex pairs of a digest gives back the digest |
| `Fetch.NormalizeColonHex` | src/fetch.ts:27-29 | a digest of n bytes in `"AB:CD:..."` form normalises to exactly those n bytes |
| `Fetch.Sha256FingerprintLength` | src/fetch.ts:26-29 | a SHA-256 fingerprint is 95 characters and normalises to a 32-character digest |
| `Fetch.VerifyAcceptsPinnedPeer` | src/fetch.ts:26-38 | a peer presenting the pinned digest passes the check |
| `Fetch.VerifyRejectsOtherPeer` | src/fetch.ts:26-36 | a peer presenting any other digest fails with a Mismatch naming the pin and the peer's digest |
| `Fetch.OkOf` | src/fetch.ts:55 | ok exactly when a status is present and 200 <= status < 300; an absent status gives false |
| `Fetch.OkIsSuccessfulClass` | src/fetch.ts:55 | for three-digit codes, ok is exactly the 2xx class of section 15.3 of RFC 9110 |
| `Fetch.ConcatAppend` | src/fetch.ts:56 | joining chunk lists distributes over their concatenation |
| `Fetch.ConcatChunkAt` | src/fetch.ts:48-56 | each chunk appears in the body right after all earlier chunks: no gap, duplicate or reordering |
| `Fetch.ConcatExample` | src/fetch.ts:48-56 | the chunks "He" and "llo" join to "Hello" |
| `Fetch.Aggregate` | src/fetch.ts:48-57 | status copied unchanged, ok as above, and body the in-order join of all chunks (empty for no chunks) |
| `Fetch.PendingRequest.constructor` | src/fetch.ts:14 | a new request is unsettled and not destroyed |
| `Fetch.PendingRequest.Resolve` | src/fetch.ts:21 | resolving settles only a pending request and never changes a settled one |
| `Fetch.PendingRequest.Reject` | src/fetch.ts:21 | rejecting settles only a pending request and never changes a settled one |
| `Fetch.PendingRequest.Destroy` | src/fetch.ts:35 | the request is destroyed and its settlement is unchanged |
| `Fetch.PendingRequest.OnSecureConnect` | src/fetch.ts:24-38 | on a mismatch the request is rejected with the mismatch error (if still pending) and destroyed; on a match nothing changes |
| `Fetch.FetchWithPin` | src/fetch.ts:10-57 | on a match, the aggregated response; on a mismatch, the mismatch error naming both digests and no response |
| `Json.Truthy` | src/index.ts:115-118 | a value is truthy exactly when it is not one of undefined, null, false, 0 and the empty string |
| `Json.Get` | src/index.ts:171 | property access throws a TypeError exactly on null and undefined; a defined result is an own property of an object, and an object's own property is returned as it is (inherited members are not modelled, see Left out) |
| `Client.CommandReply` | src/index.ts:43-46 | null without a response, otherwise exactly `response.ok` |
| `Client.QueryReply` | src/index.ts:98-110 | null without a response; false when not ok or unparsable; the parsed value otherwise |
| `Client.ServerReply` | src/index.ts:25-34 | null without a response or when not ok; the parsed value when ok; a SyntaxError rejection when the ok body does not parse |
| `Client.UsersReply` | src/index.ts:164-180 | null without a response; false when not ok, unparsable or parsed null; for a parsed object its `accessKeys` member (undefined when absent); undefined for any other parsed value |
| `Client.UserUsageReply` | src/index.ts:113-123 | null unless the usage value and its entry for the id are truthy, then the entry; a TypeError when `bytesTransferredByUserId` is null or missing; null when it is any other non-object; never a falsy value other than null |
| `Client.OutlineVPN.RequestOf` | src/index.ts:25-275 | every URL is `apiUrl` + "/" + path; `Content-Type: application/json` is sent exactly with a body, and a body exactly on PUT |
| `Client.KeyRequestUrl` | src/index.ts:182-267 | a method acting on one access key sends its request under `apiUrl/access-keys/<id>` |
| `Client.OutlineVPN.Invoke` | src/index.ts:21-23 | each public method sends its request with the client's pin; a rejection of the fetch, a fingerprint mismatch included, passes through unchanged; a response is mapped by the method's own `ReplyOf` |
| `Client.ReplyOf` | src/index.ts:25-275 | every method gives null without a response; command methods give `CommandReply`, query methods `QueryReply`; `getServer` gives `ServerReply`, `getUsers` gives `UsersReply`, and `getDataUserUsage` gives `UserUsageReply` of the `getDataUsage` reply; only `getServer` and `getDataUserUsage` can reject on their own |
| `Client.DisableUserIsZeroDataLimit` | src/index.ts:269-271 | `disableUser(id)` sends a zero-byte limit PUT to the key's data-limit URL and yields what `addDataLimit(id, 0)` yields |
| `Client.EnableUserIsDeleteDataLimit` | src/index.ts:273-275 | `enableUser(id)` sends a DELETE to the key's data-limit URL and yields what `deleteDataLimit(id)` yields |
| `Client.GetDataUserUsageViaGetDataUsage` | src/index.ts:113-114 | `getDataUserUsage` sends the `getDataUsage` request, reads the resolved usage value, and passes a fetch rejection through unchanged |

## Left out

- The `https.request` and `TLSSocket` plumbing: the `socket` and `secureConnect` events, `getPeerCertificate`, `request.write`, `end` and the event loop. This is network I/O. The peer's `fingerprint256` and the incoming message are inputs, and the race between events is reduced to the first-settlement-wins cell.
- The SHA-256 computation of the certificate, which Node performs; the fingerprint text is an input.
- The order of the body write relative to the fingerprint check. It is timing only.
- Transport errors emitted by `https.request` and a response stream that fails mid-way. These reject `fetchWithPin`; the client sees them only as the error side of `send`, which it passes through unchanged.
- The `timeout` option. The client passes it, and `fetchWithPin` ignores it.
- UTF-8 decoding of the body (`Buffer.concat(chunks).toString()`). Bodies stay bytes, and `parse` stands for decoding plus `JSON.parse`.
- `JSON.parse` and `JSON.stringify`, which are library code. Parsing is the `parse` parameter. A request body is the JSON document before serialisation.
- JavaScript numbers are integers here: fractional byte counts and ports are not modelled.
- Json.Get: members inherited from `Object.prototype` are not modelled. On an object, a key that is not an own property (`constructor`, `__proto__`, `toString`, ...) reads as `undefined`, where JavaScript returns the inherited member. So `getDataUserUsage("constructor")` resolves to `null` in the model and to a function in the code. On strings, arrays and other non-objects, indices, `length` and inherited members also read as `undefined`.
- Requests without a body carry an empty header map, where the source leaves `headers` undefined.
- `console.error` and `console.log` in the query methods. This is logging only.
- The contents of `./types`, which is not part of this model. The shapes `Server`, `User`, `DataUsageByUser` and `ServerMetrics` are plain JSON values.
