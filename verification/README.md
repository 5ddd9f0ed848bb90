# Flooring estimator back end — Dafny model

This project models the two request handlers of the flooring estimator's back end:

- the `POST /api/flooring-estimate` route (server.js). It rejects a request without an
  uploaded blueprint. It asks an external model for a floor-area estimate and turns
  output that is not JSON into an explicit error. From the model's `subtotal_sqft`, the
  waste percentage and the square feet per box, it derives waste, total and the number
  of boxes, letting a missing subtotal propagate as `null`;
- the chat handler (api/chat.js). It checks the method, the message and the API key in
  that order, forwards the question upstream, and extracts the reply text from the
  upstream `output` items.

The upstream calls are not modelled. They appear as inputs:
- for the estimate route: the response's `output_text`, and a `parse` function that
  stands for `JSON.parse` followed by reading the fields the route uses;
- for the chat handler: an `Upstream` value, either a failed response with its body text
  or an ok response with its `output` property.

Numbers are exact Dafny `real`s. `Math.ceil` is an integer ceiling.

Files:
- `options.dfy`: `Option`, for JavaScript's `null`/`undefined`.
- `json.dfy`: parsed JSON values, JavaScript truthiness, `??` and `||`.
- `ceiling.dfy`: `Math.ceil` and the "least number of boxes" reading of `Math.ceil(total / perBox)`.
- `estimate.dfy`: the estimate route (module `FlooringEstimate`).
- `chat.dfy`: the chat handler (module `ChatHandler`).

Two definitions are independent of the code they check:
- `FlooringEstimate.MeetsContract` states the estimate's contract without computing it.
  The model proves that the post-calculation meets it. It also proves that no other
  record does.
- In `ChatHandler`, the recursive `FirstText`/`LastText` give a reference definition of
  the reply. The source's nested loop with its inner `break` (`ExtractReply`) is proved
  to compute it.

Boxes are computed whenever the total is non-null and `sqftPerBox > 0` (server.js:91; the
prompt at server.js:49 states the same rule). A zero or negative total therefore still
gets a box count of 0 or below, and the model keeps that behaviour.

## Model

| member | source | states |
|---|---|---|
| Ceiling.Ceil | server.js:91 | `Math.ceil(x)` is an integer n with x <= n < x + 1 |
| Ceiling.CeilIsLeast | server.js:91 | no integer at or above x is below `Math.ceil(x)` |
| Ceiling.CeilUnique | server.js:91 | any integer within one unit above x is `Math.ceil(x)` |
| Ceiling.CeilMonotone | server.js:91 | `Math.ceil` is monotone |
| Ceiling.CeilDivIsLeastCover | server.js:91 | `ceil(total / perBox)` boxes hold the total, and one box fewer does not, when perBox > 0 |
| Ceiling.LeastCoverIsMinimal | server.js:91 | a least cover uses no more boxes than any count that holds the total |
| Ceiling.LeastCoverIsCeilDiv | server.js:91 | the least cover is unique and equals `ceil(total / perBox)` |
| FlooringEstimate.FormNumber | server.js:27-28 | an absent form field reads as 0, a present one as its value |
| FlooringEstimate.Prefix | server.js:82 | the echoed raw text is a prefix of the model's text: all of it when at most 4000 long, otherwise exactly its first 4000 characters |
| FlooringEstimate.PostCalc | server.js:86-102 | subtotal and waste percentage are echoed; a null subtotal makes waste, total and boxes null; boxes only with a total and a positive box size; total = subtotal × (1 + wastePct/100) |
| FlooringEstimate.PostCalcMeetsContract | server.js:86-102 | the result meets the full contract: waste = subtotal × wastePct/100, total = subtotal + waste, boxes is the least whole number of boxes holding the total, sqft_per_box echoed only when positive, rooms/notes passed through or defaulted to [] |
| FlooringEstimate.ContractDeterminesEstimate | server.js:86-102 | any record meeting that contract is exactly the post-calculation's result |
| FlooringEstimate.BoxesAreLeastCover | server.js:91 | with a subtotal and positive box size, boxes_needed holds the total with less than one box spare, and is at most any count that holds it |
| FlooringEstimate.MoreWasteNeverFewerBoxes | server.js:88-91 | for a non-negative subtotal, raising the waste percentage never lowers the box count |
| FlooringEstimate.HandleEstimate | server.js:24-104 | the status is 200, 400 or 500; no file gives 400 "Missing file"; a file with unparseable output gives 500 with the error and a raw prefix and no estimate; 200 exactly when a file is present and the output parses, and then the estimate meets the contract |
| FlooringEstimate.MissingFileIgnoresModel | server.js:26 | a missing file yields 400 whatever the model output and parser |
| JsonValues.Coalesce | server.js:100-101 | `v ?? d` gives `d` for an absent or `null` value and the value otherwise, so a non-null default never yields `null` |
| JsonValues.OrElse | api/chat.js:27 | JavaScript's logical-or default gives the value when it is truthy and the default otherwise, so a truthy default always yields a truthy result |
| ChatHandler.MessageRejected | api/chat.js:9 | the message check passes exactly for a present, non-empty string |
| ChatHandler.KeyMissing | api/chat.js:13 | the key is missing exactly when the variable is unset or empty |
| ChatHandler.Qualifies | api/chat.js:60 | a part qualifies exactly when its type is `output_text` and it has a non-empty text |
| ChatHandler.ItemText | api/chat.js:58-64 | an item whose content is absent or falsy yields nothing, and a text an item yields is never empty |
| ChatHandler.ItemTextNoneIff | api/chat.js:58-64 | an item yields nothing exactly when its content is absent or falsy or none of its parts qualifies |
| ChatHandler.ReplyOf | api/chat.js:54-67 | the reply is the default when `output` is not an array or no item yields a text; any other reply is the text some item yields |
| ChatHandler.MessageAcceptedIffNonEmptyString | api/chat.js:9-11 | the falsy-or-not-a-string check accepts exactly the non-empty strings |
| ChatHandler.Decide | api/chat.js:2-17 | the request is forwarded iff it is a POST with a non-empty string message and a non-empty key; the forwarded question is that message; every other outcome is a 400, 405 or 500 error |
| ChatHandler.FirstText | api/chat.js:59-64 | an item yields nothing iff none of its parts is an `output_text` with non-empty text; otherwise it yields the text of the first such part |
| ChatHandler.LastText | api/chat.js:56-67 | the items yield nothing iff no item yields a text; otherwise the result is the text of an item after which no item yields one |
| ChatHandler.ScanParts | api/chat.js:59-64 | the inner loop with its `break` finds nothing exactly when no part qualifies, and otherwise finds the text of the first qualifying part |
| ChatHandler.ExtractReply | api/chat.js:53-67 | the outer loop, overwriting the reply with each item's find, returns the default when `output` is not an array or holds no qualifying part, and otherwise the reference reply |
| ChatHandler.LaterItemOverwrites | api/chat.js:57-66 | an appended item with a qualifying part replaces the reply |
| ChatHandler.SilentItemKeepsReply | api/chat.js:57-66 | an appended item without one leaves the reply unchanged |
| ChatHandler.ReplyCharacterisation | api/chat.js:54-67 | the reply is the default when no part qualifies; otherwise it is the first qualifying text of the last item that has one |
| ChatHandler.Complete | api/chat.js:45-69 | a failed upstream call gives 500 "OpenAI request failed" with the upstream text as details; an ok one gives 200 with a reply |
| ChatHandler.Handle | api/chat.js:1-77 | non-POST gives 405 "Use POST" whatever else; a bad message gives 400 before the key is checked; a missing key gives 500; 200 exactly when forwarded and answered, and a reply body exactly on 200 |
| ChatHandler.MissingKeyNeverCallsUpstream | api/chat.js:13-17 | without a key the decision is an answer, and the response is the same for every upstream outcome |
| ChatHandler.ForwardedAnswerIsReply | api/chat.js:53-69 | a forwarded request with an ok upstream answer gives 200 with the extracted reply |
| ChatHandler.ForwardedFailureIsError | api/chat.js:45-51 | a forwarded request whose upstream call fails gives 500 carrying the upstream text |

## Left out

- Express, multer, dotenv, the OpenAI client and `fetch`: foreign I/O. Upstream results are inputs, and the API key is an `Option<string>` input.
- Prompt construction (server.js:37-53, api/chat.js:19-28): free text sent to an external model. The chat query records only the message and the snapshot, with `snapshot || {}` applied.
- `Number(...)` coercion of form strings and of `subtotal_sqft`, `NaN` and `Infinity`: the model takes already-numeric values. An absent or empty form field reads as 0.
- `JSON.parse` and `openaiRes.json()`: the estimate route takes `parse` as a parameter, and the chat handler takes an already-typed `output`.
- IEEE-754 rounding: arithmetic is exact over `real`.
- `raw` truncation counts Dafny characters, where `String.prototype.slice` counts UTF-16 code units.
- The catch-all exception branches (server.js:105-108, api/chat.js:71-76) and the TypeErrors that lead there are not modelled. Such errors arise when the model's output parses to `null` (server.js:87), when an output item is `null` (api/chat.js:58), when `content` is truthy but not iterable (api/chat.js:59), and when an element of `content` is `null` (api/chat.js:60). A parsed value that is a number or a string does not throw: its property reads are `undefined`. The estimate route then returns 200 with all-null fields, which the model covers as a `ModelFields` with every field absent. The chat handler then returns the default reply, which the model covers as `output` not being an array.
- A `text` property that is truthy but not a string (it would become the reply as is): `text` is modelled as an optional string.
- `app.js` and `chatbot.js`: page wiring and display formatting only.
- Server start-up (`app.listen`, the `GET /` health route) and logging.
