/**
 The data half of the events page's `fetchData`: list the events, join
 each with its organization's name, list the inventory (fund-raising)
 requests, normalize them, and record what the page ends up holding.
 Store reads are supplied as an adapter value: what each listing and
 each organization lookup returned.
 */
module Aggregation {
  import opened Wrappers
  import opened Values
  import opened DocStore

  /** Name shown when an event's organization document does not exist. */
  const UnknownNgo := "Unknown NGO"
  /** Category written over every fund-raising request. */
  const FundRaisingType := "Fund Raising"
  /** Description written over every fund-raising request. */
  const FundRaisingDescription := "A fund raising event that helps the needy"

  /** What `getDoc(doc(db, "ngos", key))` yielded. */
  datatype Lookup = Found(data: Doc) | NotFound | ReadError

  /** What `getDocs(collection(db, name))` yielded. */
  datatype Listing = Listed(docs: seq<Snap>) | ListError

  /** The answers of the store to the reads `fetchData` issues. */
  datatype Reads = Reads(events: Listing, ngo: Value -> Lookup, inventoryRequests: Listing)

  /** The read whose failure aborted `fetchData`. */
  datatype FetchError = EventsListFailed | NgoLookupFailed(ngoId: Value) | InventoryListFailed

  /** What the page holds once `fetchData` has finished. */
  datatype PageState = PageState(
    events: seq<Doc>,
    inventoryRequests: seq<Doc>,
    loading: bool,
    logged: Option<FetchError>)

  /** The page before `fetchData` runs. */
  const Initial := PageState([], [], true, None)

  /** `{id, ...data, ...tail}`: later sources win, so a stored `id` hides the document id. */
  function Spread(id: Value, data: Doc, tail: Doc): (d: Doc)
    ensures d.Keys == {"id"} + data.Keys + tail.Keys
    ensures forall k :: k in tail ==> d[k] == tail[k]
    ensures forall k :: k in data && k !in tail ==> d[k] == data[k]
    ensures "id" !in data && "id" !in tail ==> d["id"] == id
  {
    map["id" := id] + data + tail
  }

  /** The reference the page builds for an event's organization: its stored `ngoId`. */
  function NgoKey(event: Snap): Value
  {
    Field(event.data, "ngoId")
  }

  /** The organization name for a lookup that did not fail. */
  function OrgName(l: Lookup): (name: Value)
    requires !l.ReadError?
    ensures l.NotFound? ==> name == Str(UnknownNgo)
    ensures l.Found? ==> name == Field(l.data, "ngoName")
  {
    match l
    case Found(d) => Field(d, "ngoName")
    case NotFound => Str(UnknownNgo)
  }

  /** `{ id: eventDoc.id, ...eventData, ngoName }`. */
  function EventRecord(event: Snap, ngoName: Value): (d: Doc)
    ensures d.Keys == {"id", "ngoName"} + event.data.Keys
    ensures d["ngoName"] == ngoName
    ensures forall k :: k in event.data && k != "ngoName" ==> d[k] == event.data[k]
    ensures d["id"] == (if "id" in event.data then event.data["id"] else event.id)
  {
    Spread(event.id, event.data, map["ngoName" := ngoName])
  }

  /** True iff some event's organization lookup failed. */
  predicate SomeLookupFails(events: seq<Snap>, ngo: Value -> Lookup)
  {
    exists i :: 0 <= i < |events| && ngo(NgoKey(events[i])).ReadError?
  }

  /**
   The `Promise.all` join: every event becomes its record with the
   organization name its lookup resolved, in listing order; one failed
   lookup fails the whole join.
   */
  function JoinEvents(events: seq<Snap>, ngo: Value -> Lookup): (r: Result<seq<Doc>, FetchError>)
    ensures r.Failure? <==> SomeLookupFails(events, ngo)
    ensures r.Failure? ==> r.error.NgoLookupFailed? && ngo(r.error.ngoId).ReadError?
    ensures r.Failure? ==> exists i :: 0 <= i < |events| && NgoKey(events[i]) == r.error.ngoId
    ensures r.Success? ==> Joined(events, ngo, r.value)
  {
    if |events| == 0 then Success([])
    else
      var key := NgoKey(events[0]);
      var lookup := ngo(key);
      SomeLookupFailsUnfold(events, ngo);
      if lookup.ReadError? then Failure(NgoLookupFailed(key))
      else
        match JoinEvents(events[1..], ngo)
        case Failure(err) =>
          var i :| 0 <= i < |events| - 1 && NgoKey(events[1..][i]) == err.ngoId;
          assert NgoKey(events[i + 1]) == err.ngoId;
          Failure(err)
        case Success(rest) =>
          JoinedCons(events, ngo, rest);
          Success([EventRecord(events[0], OrgName(lookup))] + rest)
  }

  /** Each record is the event's record under the name its lookup resolved. */
  ghost predicate Joined(events: seq<Snap>, ngo: Value -> Lookup, records: seq<Doc>)
  {
    && |records| == |events|
    && forall i :: 0 <= i < |events| ==>
         !ngo(NgoKey(events[i])).ReadError? &&
         records[i] == EventRecord(events[i], OrgName(ngo(NgoKey(events[i]))))
  }

  /** Prepending the first event's record to the join of the rest joins them all. */
  lemma JoinedCons(events: seq<Snap>, ngo: Value -> Lookup, rest: seq<Doc>)
    requires |events| > 0 && !ngo(NgoKey(events[0])).ReadError?
    requires Joined(events[1..], ngo, rest)
    ensures Joined(events, ngo, [EventRecord(events[0], OrgName(ngo(NgoKey(events[0]))))] + rest)
  {
    var r := [EventRecord(events[0], OrgName(ngo(NgoKey(events[0]))))] + rest;
    forall i | 1 <= i < |events|
      ensures !ngo(NgoKey(events[i])).ReadError? &&
        r[i] == EventRecord(events[i], OrgName(ngo(NgoKey(events[i]))))
    {
      assert events[i] == events[1..][i - 1] && r[i] == rest[i - 1];
    }
  }

  /** An event's lookup fails iff the first one fails or one of the rest does. */
  lemma SomeLookupFailsUnfold(events: seq<Snap>, ngo: Value -> Lookup)
    requires |events| > 0
    ensures SomeLookupFails(events, ngo) <==>
      ngo(NgoKey(events[0])).ReadError? || SomeLookupFails(events[1..], ngo)
  {
    if SomeLookupFails(events[1..], ngo) {
      var i :| 0 <= i < |events| - 1 && ngo(NgoKey(events[1..][i])).ReadError?;
      assert events[1..][i] == events[i + 1];
    }
    if SomeLookupFails(events, ngo) && !ngo(NgoKey(events[0])).ReadError? {
      var i :| 0 <= i < |events| && ngo(NgoKey(events[i])).ReadError?;
      assert events[i] == events[1..][i - 1];
    }
  }

  /** `{ id: doc.id, ...doc.data(), eventType, description }` for one inventory request. */
  function FundRaising(request: Snap): (d: Doc)
    ensures d.Keys == {"id", "eventType", "description"} + request.data.Keys
    ensures d["eventType"] == Str(FundRaisingType)
    ensures d["description"] == Str(FundRaisingDescription)
    ensures forall k :: k in request.data && k != "eventType" && k != "description" ==>
      d[k] == request.data[k]
    ensures "id" !in request.data ==> d["id"] == request.id
  {
    Spread(request.id, request.data,
      map["eventType" := Str(FundRaisingType), "description" := Str(FundRaisingDescription)])
  }

  /** The fund-raising list: one normalized record per request, in listing order. */
  function NormalizeRequests(requests: seq<Snap>): (r: seq<Doc>)
    ensures |r| == |requests|
    ensures forall i :: 0 <= i < |r| ==>
      Field(r[i], "eventType") == Str(FundRaisingType) &&
      Field(r[i], "description") == Str(FundRaisingDescription)
    ensures forall i :: 0 <= i < |r| ==> r[i] == FundRaising(requests[i])
  {
    seq(|requests|, i requires 0 <= i < |requests| => FundRaising(requests[i]))
  }

  /**
   `fetchData`: events are committed before the inventory requests are
   listed, any failed read skips the rest and is logged, and loading
   ends on every path.
   */
  function FetchData(answers: Reads): (p: PageState)
    ensures !p.loading
    ensures p.logged.None? <==>
      answers.events.Listed? && !SomeLookupFails(answers.events.docs, answers.ngo) &&
      answers.inventoryRequests.Listed?
    ensures answers.events.ListError? ==> p == PageState([], [], false, Some(EventsListFailed))
    ensures answers.events.Listed? && SomeLookupFails(answers.events.docs, answers.ngo) ==>
      p.events == [] && p.inventoryRequests == [] && p.logged.Some? && p.logged.value.NgoLookupFailed?
    ensures answers.events.Listed? && !SomeLookupFails(answers.events.docs, answers.ngo) ==>
      p.events == JoinEvents(answers.events.docs, answers.ngo).value
    ensures p.logged == Some(InventoryListFailed) <==>
      answers.events.Listed? && !SomeLookupFails(answers.events.docs, answers.ngo) &&
      answers.inventoryRequests.ListError?
    ensures p.logged.Some? ==> p.inventoryRequests == []
    ensures p.logged.None? ==> p.inventoryRequests == NormalizeRequests(answers.inventoryRequests.docs)
  {
    match answers.events
    case ListError => Initial.(loading := false, logged := Some(EventsListFailed))
    case Listed(events) =>
      match JoinEvents(events, answers.ngo)
      case Failure(err) => Initial.(loading := false, logged := Some(err))
      case Success(records) =>
        match answers.inventoryRequests
        case ListError =>
          Initial.(events := records, loading := false, logged := Some(InventoryListFailed))
        case Listed(requests) =>
          PageState(records, NormalizeRequests(requests), false, None)
  }

  /** The organization lookup the store would answer for a string id, absent a read failure. */
  function StoredLookup(s: Store, ngoId: string): Lookup
  {
    match Get(Col(s, "ngos"), Str(ngoId))
    case Some(d) => Found(d)
    case None => NotFound
  }

  /** A listing that either failed or returned the whole collection in store order. */
  predicate ListingOf(l: Listing, c: Collection)
  {
    l.ListError? || l.docs == c
  }

  /**
   The reads are answers of the store `s`: a lookup by a string id either
   fails or reports the stored organization; nothing is assumed about
   lookups by any other value.
   */
  ghost predicate Faithful(answers: Reads, s: Store)
  {
    && ListingOf(answers.events, Col(s, "events"))
    && ListingOf(answers.inventoryRequests, Col(s, "inventoryRequests"))
    && forall k: string :: answers.ngo(Str(k)) == StoredLookup(s, k) || answers.ngo(Str(k)).ReadError?
  }

  /** The name a faithful read resolves for an organization stored (or not) under `ngoId`. */
  function StoredOrgName(s: Store, ngoId: string): Value
  {
    match Get(Col(s, "ngos"), Str(ngoId))
    case Some(d) => Field(d, "ngoName")
    case None => Str(UnknownNgo)
  }

  /**
   Once the events are committed, the page holds one record per stored
   event, in store order; each carries the event's stored fields and,
   for a string `ngoId`, the stored organization's name or the fallback.
   */
  lemma CommittedEvents(answers: Reads, s: Store)
    requires Faithful(answers, s)
    requires answers.events.Listed? && !SomeLookupFails(answers.events.docs, answers.ngo)
    ensures var events := Col(s, "events"); var p := FetchData(answers);
      && |p.events| == |events|
      && (forall i :: 0 <= i < |events| ==>
            p.events[i].Keys == {"id", "ngoName"} + events[i].data.Keys)
      && (forall i, k :: 0 <= i < |events| && k in events[i].data && k != "ngoName" ==>
            p.events[i][k] == events[i].data[k])
      && (forall i :: 0 <= i < |events| && "id" !in events[i].data ==> p.events[i]["id"] == events[i].id)
      && (forall i, ngoId :: 0 <= i < |events| && NgoKey(events[i]) == Str(ngoId) ==>
            p.events[i]["ngoName"] == StoredOrgName(s, ngoId))
  {
    var events := Col(s, "events");
    var p := FetchData(answers);
    assert answers.events.docs == events;
    forall i, ngoId | 0 <= i < |events| && NgoKey(events[i]) == Str(ngoId)
      ensures p.events[i]["ngoName"] == StoredOrgName(s, ngoId)
    {
      var l := answers.ngo(Str(ngoId));
      assert !l.ReadError?;
      assert l == StoredLookup(s, ngoId);
      assert p.events[i] == EventRecord(events[i], OrgName(l));
    }
  }

  /**
   Once every read succeeded, the page holds one fund-raising record per
   stored request, in store order, carrying the two constants over
   whatever was stored and every other stored field unchanged.
   */
  lemma CommittedRequests(answers: Reads, s: Store)
    requires Faithful(answers, s)
    requires FetchData(answers).logged.None?
    ensures var requests := Col(s, "inventoryRequests"); var p := FetchData(answers);
      && |p.inventoryRequests| == |requests|
      && (forall i :: 0 <= i < |requests| ==>
            p.inventoryRequests[i]["eventType"] == Str(FundRaisingType) &&
            p.inventoryRequests[i]["description"] == Str(FundRaisingDescription))
      && (forall i, k ::
            0 <= i < |requests| && k in requests[i].data && k != "eventType" && k != "description" ==>
            p.inventoryRequests[i][k] == requests[i].data[k])
      && (forall i :: 0 <= i < |requests| && "id" !in requests[i].data ==>
            p.inventoryRequests[i]["id"] == requests[i].id)
  {
    var requests := Col(s, "inventoryRequests");
    var p := FetchData(answers);
    assert answers.inventoryRequests.docs == requests;
    forall i | 0 <= i < |requests|
      ensures p.inventoryRequests[i] == FundRaising(requests[i])
    {
    }
  }

  /** A failed events listing or organization lookup skips the inventory listing entirely. */
  lemma AbortSkipsInventory(answers: Reads, other: Listing)
    requires answers.events.ListError? || SomeLookupFails(answers.events.docs, answers.ngo)
    ensures FetchData(answers.(inventoryRequests := other)) == FetchData(answers)
    ensures FetchData(answers).events == [] && FetchData(answers).inventoryRequests == []
  {
  }
}
