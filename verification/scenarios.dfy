/** Concrete runs of the page's data logic on small stores. */
module Scenarios {
  import opened Wrappers
  import opened Values
  import opened DocStore
  import opened Aggregation
  import opened Registration

  const BeachCleanup := Snap(Str("e1"), map["ngoId" := Str("n1"), "title" := Str("Beach Cleanup")])
  const GreenOrg := map["ngoName" := Str("Green Org")]
  const HopeRequest := Snap(Str("r1"), map["ngoName" := Str("Hope Foundation"), "status" := Str("open")])

  /** An event whose organization exists shows that organization's name. */
  lemma OrganizationFound()
    ensures var answers := Reads(
        Listed([BeachCleanup]), k => if k == Str("n1") then Found(GreenOrg) else NotFound, Listed([]));
      var p := FetchData(answers);
      && p.logged == None
      && |p.events| == 1 && p.events[0]["ngoName"] == Str("Green Org")
      && p.events[0]["id"] == Str("e1") && p.events[0]["title"] == Str("Beach Cleanup")
  {
    var answers := Reads(
      Listed([BeachCleanup]), k => if k == Str("n1") then Found(GreenOrg) else NotFound, Listed([]));
    assert answers.ngo(NgoKey(BeachCleanup)) == Found(GreenOrg);
    assert !SomeLookupFails([BeachCleanup], answers.ngo);
  }

  /** A fund-raising request keeps its stored fields and gains the two constants. */
  lemma RequestNormalized()
    ensures NormalizeRequests([HopeRequest]) == [map[
      "id" := Str("r1"), "ngoName" := Str("Hope Foundation"), "status" := Str("open"),
      "eventType" := Str(FundRaisingType), "description" := Str(FundRaisingDescription)]]
  {
    var expected := map[
      "id" := Str("r1"), "ngoName" := Str("Hope Foundation"), "status" := Str("open"),
      "eventType" := Str(FundRaisingType), "description" := Str(FundRaisingDescription)];
    var normalized := FundRaising(HopeRequest);
    assert normalized.Keys == expected.Keys;
    assert normalized == expected;
  }

  /** An event whose organization document is missing shows the fallback name. */
  lemma MissingOrganization()
    ensures var answers := Reads(
        Listed([Snap(Str("e2"), map["ngoId" := Str("missing")])]), k => NotFound, Listed([]));
      var p := FetchData(answers);
      |p.events| == 1 && p.events[0]["ngoName"] == Str(UnknownNgo)
  {
    var e2 := Snap(Str("e2"), map["ngoId" := Str("missing")]);
    var answers := Reads(Listed([e2]), k => NotFound, Listed([]));
    assert !SomeLookupFails([e2], answers.ngo);
  }

  /** Registering `u1` for `e1` on an empty store links both sides; doing it again adds nothing. */
  lemma RegisterTwiceOnEmptyStore()
    ensures var session := Obj(map["id" := Str("u1")]);
      var once := Register(Store(map[]), session, Str("e1"), NoFaults);
      var twice := Register(once.store, session, Str("e1"), NoFaults);
      && once.outcome == Registered
      && Get(Col(once.store, Users), Str("u1")) == Some(map["registeredEvents" := Arr([Str("e1")])])
      && Get(Col(once.store, Events), Str("e1")) == Some(map["registeredUsers" := Arr([Str("u1")])])
      && twice.store == once.store
  {
    var session := Obj(map["id" := Str("u1")]);
    var empty := Store(map[]);
    assert UserId(session) == Str("u1");
    var s1 := Apply(empty, UserWrite(Str("u1"), Str("e1")));
    assert Col(empty, Users) == [];
    assert Get(Col(s1, Users), Str("u1")) == Some(AddToField(map[], "registeredEvents", Str("e1")));
    assert Col(s1, Events) == [];
    RetryRecovers(empty, session, Str("e1"), NoFaults);
  }
}
