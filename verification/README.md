# Events page data logic, modelled in Dafny

This project models the data-handling half of the events page of a
charity directory (`client/src/Pages/EventsPage.js`). The page does
three things with its document store:

- **Event aggregation.** It lists the `events` collection and looks up
  each event's organization in `ngos/{ngoId}`. When that document does
  not exist it shows `"Unknown NGO"`. Each record is built as
  `{ id, ...storedFields, ngoName }`.
- **Fund-raising normalization.** It lists `inventoryRequests`. Each
  request becomes `{ id, ...storedFields }` with
  `eventType: "Fund Raising"` and
  `description: "A fund raising event that helps the needy"` written
  over whatever was stored.
- **Registration.** It picks a participant id from the session data,
  falling back to `"DEFAULT_USER_ID"` when there is none, and aborts
  when the id is falsy. It then issues two set-union updates one after
  the other: `users/{uid}.registeredEvents ∪= {eventId}`, then
  `events/{eventId}.registeredUsers ∪= {uid}`. Either failure is
  reported as one failure.

The store is abstract. It maps a collection name to an ordered list of
documents, each addressed by the value used as its id (`DocStore`). The
answers the store gives to the page's reads are an input value
(`Aggregation.Reads`). `Faithful` relates those answers to a store. The
store's verdict on each of the two registration writes is an input too
(`Registration.WriteFaults`).

Modules:

- `Values`: JavaScript values, truthiness, and `arrayUnion`.
- `DocStore`: collections, lookup, and the set-union update.
- `Aggregation`: `fetchData` and the page state it leaves behind.
- `Registration`: `handleRegister` as a pure state transition that
  returns the alert, the new store and the updates it issued.
- `Scenarios`: small concrete runs.

## Model

| member | source | states |
|---|---|---|
| `Values.ArrayUnion` | client/src/Pages/EventsPage.js:84 | After the update the field is an array holding the added id. Existing elements keep their order. Nothing else is added. An id already present leaves the field unchanged. |
| `Values.ArrayUnionIdempotent` | client/src/Pages/EventsPage.js:84 | Adding the same id twice gives the same field as adding it once. |
| `Values.ArrayUnionNoDuplicates` | client/src/Pages/EventsPage.js:90 | A set-union update never creates a duplicate in an array that had none. |
| `DocStore.Find` | client/src/Pages/EventsPage.js:31 | Returns the position of the first document with the given id, and returns none exactly when no document has that id. |
| `DocStore.Get` | client/src/Pages/EventsPage.js:31-32 | A lookup reports "does not exist" exactly when no document has the id. Otherwise it returns a record stored under that id. |
| `DocStore.AddToField` | client/src/Pages/EventsPage.js:83-85 | The named field becomes the set-union of its old value with the element, so it holds the element and keeps its earlier elements. Every other field keeps its value. |
| `DocStore.UnionField` | client/src/Pages/EventsPage.js:83-85 | After a successful update the addressed document is its old record (or an empty one) with the element added. Every other id reads the same as before. Existing documents keep their ids and positions. |
| `DocStore.FindAfterReplace` | client/src/Pages/EventsPage.js:83-85 | Rewriting a document in place moves no id. |
| `DocStore.FindAfterAppend` | client/src/Pages/EventsPage.js:83-85 | Appending a new document does not change where existing ids are found. The new id is found at the end. |
| `DocStore.UpdateDoc` | client/src/Pages/EventsPage.js:82-85 | A successful `updateDoc` with `arrayUnion` changes only the addressed document of the addressed collection. |
| `DocStore.UnionFieldIdempotent` | client/src/Pages/EventsPage.js:84 | Repeating a successful update leaves the collection as one update left it. |
| `DocStore.UpdateDocAbsorbed` | client/src/Pages/EventsPage.js:88-91 | A store that already holds an update's effect is left unchanged by that update. |
| `Aggregation.Spread` | client/src/Pages/EventsPage.js:35 | Object-spread precedence. Later sources win, every stored field is carried, and the document id survives only when no stored `id` field hides it. |
| `Aggregation.EventRecord` | client/src/Pages/EventsPage.js:35 | The event record has the stored fields plus `id` and `ngoName`. The resolved `ngoName` overrides a stored one. A stored `id` overrides the document id. |
| `Aggregation.JoinEvents` | client/src/Pages/EventsPage.js:28-37 | The join fails exactly when some organization lookup failed, and it names a failed key. Otherwise it has one record per event, in listing order, each with the name its lookup resolved. |
| `Aggregation.FundRaising` | client/src/Pages/EventsPage.js:46-51 | A request record carries the two constants whatever was stored. Every other stored field passes through. The document id is kept unless a stored `id` hides it. |
| `Aggregation.NormalizeRequests` | client/src/Pages/EventsPage.js:45-52 | Same length and order as the listing. Every element carries `"Fund Raising"` and the fixed description. |
| `Aggregation.FetchData` | client/src/Pages/EventsPage.js:23-60 | Loading ends on every path. A failed events listing or lookup leaves both lists empty. Events are committed before the inventory listing, so an inventory failure leaves events populated and requests empty. No failure is logged exactly when all reads succeeded. |
| `Aggregation.CommittedEvents` | client/src/Pages/EventsPage.js:26-38 | Against a store: one record per stored event, in store order, carrying every stored field. For a string `ngoId`, `ngoName` is the stored organization's `ngoName`, or `"Unknown NGO"` when that document does not exist. |
| `Aggregation.CommittedRequests` | client/src/Pages/EventsPage.js:41-53 | Against a store: one record per stored request, in store order, with the two constants and every other stored field unchanged. |
| `Aggregation.AbortSkipsInventory` | client/src/Pages/EventsPage.js:24-59 | After a failed events listing or organization lookup, the inventory answer is never consulted and the page holds no records. |
| `Registration.UserId` | client/src/Pages/EventsPage.js:74 | No session data gives `"DEFAULT_USER_ID"`. Session data gives its `id` member, which is `undefined` for a non-object. |
| `Registration.Register` | client/src/Pages/EventsPage.js:73-97 | "Not logged in" exactly when the id is falsy, with no update issued and the store unchanged. Success exactly when both updates are accepted. Then both sides are linked, and each link array is its old value with the new id added by set-union, so earlier registrations are kept. The participant update comes first. If it fails, nothing is written and no second update is issued. If the event update fails, the participant side persists. Both failures give the same outcome. No other document changes. |
| `Registration.RetryRecovers` | client/src/Pages/EventsPage.js:82-91 | After any first attempt (no write, participant side only, or both), an accepted retry gives the store of one accepted registration. Registering twice equals registering once. |
| `Registration.RegisterKeepsArraysDuplicateFree` | client/src/Pages/EventsPage.js:84-90 | Registration never adds a duplicate to `registeredEvents` or `registeredUsers`. |
| `Registration.RegisterChangesOnlyLinkFields` | client/src/Pages/EventsPage.js:82-91 | Only `registeredEvents` of the participant and `registeredUsers` of the event may change. Every other field keeps its value. |
| `Scenarios.OrganizationFound` | client/src/Pages/EventsPage.js:28-38 | An event whose organization exists shows that organization's name, its own id and its title. |
| `Scenarios.MissingOrganization` | client/src/Pages/EventsPage.js:31-35 | An event whose organization document is missing shows `"Unknown NGO"`. |
| `Scenarios.RequestNormalized` | client/src/Pages/EventsPage.js:45-52 | A concrete request gets exactly its stored fields, its id and the two constants. |
| `Scenarios.RegisterTwiceOnEmptyStore` | client/src/Pages/EventsPage.js:80-91 | On an empty store, registering links both sides with one-element arrays. Registering again changes nothing. |

## Left out

- Rendering (lines 104-180), including the `location === "virtual"` link condition. It is presentation, not data logic.
- `handleDonate` (lines 100-102). It only navigates and touches no state.
- Reading and parsing `sessionStorage` (lines 65-70). The parsed session data is the `session` parameter of `Registration.Register`, and `Null` stands for "no data".
- `console.log` at line 69. It belongs to the session read and is dropped with it.
- `console.error` and `alert` (lines 57, 76, 93-96). Which failure happened is returned as `PageState.logged`, and which alert is shown as `Attempt.outcome`. The error messages themselves are not modelled, so `Attempt` does not carry the message logged at line 95.
- React state hooks and the `useEffect` lifecycle. Only the values the page ends up holding are modelled (`PageState`, starting from `Initial`).
- Concurrency of `Promise.all` (line 28). The lookups are independent reads, so the join is a sequential map. When several lookups fail, the model names one failed key but does not say which one the real rejection carries.
- Firestore transport. Each read's answer and each write's acceptance are inputs.
- Firestore rules the page does not show are not modelled, for example whether `doc()` accepts a missing or non-string id, or whether `updateDoc` rejects a missing document. A rejecting store is covered by a read error or a failed write in the inputs.
- `Aggregation.Faithful` constrains lookups by string ids only. So no contract claims that the `"Unknown NGO"` fallback covers an event without a string `ngoId`.
- `DocStore.UnionField`: when the store accepts an update of a document that does not exist, the model creates that document holding only the updated field.
- `Values.ArrayUnion`: a field that is absent or not an array becomes the one-element array. This follows the documented `arrayUnion` behaviour, which the page does not show.
- `Values.Value`: numbers are integers, so `NaN` as a falsy session id is not modelled.
- A lookup by the same organization id is assumed to give the same answer for every event that shares it.
