/**
 * The server's medicine routes (backend/routes/medicineRoutes.js):
 * `GET /search/:name`, a cache lookup that either bumps the hit's search
 * count or runs the brand/generic/substance fallback chain against the label
 * API and stores one new document; and `GET /popular`, the ten most searched
 * documents. The document store is a sequence of records in insertion order;
 * the label API is the `fetch` parameter.
 */
module MedicineRoutes {
  import opened Wrappers
  import opened Text
  import opened Label
  import opened MedicineModel
  import ClientSearch

  /** Where the returned document came from. */
  datatype Source = Cache | OpenFDA {
    /** The `source` field of the response body. */
    function Tag(): string {
      match this
      case Cache => "cache"
      case OpenFDA => "OpenFDA"
    }
  }

  /** The response of `/search/:name`. */
  datatype Response = Found(source: Source, data: MedicineRecord) | NotFound | ServerError {
    function Status(): int {
      match this
      case Found(_, _) => 200
      case NotFound => 404
      case ServerError => 500
    }

    /** The `message` of an error response. */
    function Message(): string {
      match this
      case Found(_, _) => ""
      case NotFound => "Medicine not found"
      case ServerError => "Server error"
    }
  }

  /** The store after a request, the response, and the label-API searches the request made. */
  datatype Outcome = Outcome(store: seq<MedicineRecord>, response: Response, queries: seq<SearchField>)

  /**
   * `Medicine.findOne({ name: /^key$/i })`: the first document, in store
   * order, whose name equals the key ignoring case.
   */
  function FindCached(store: seq<MedicineRecord>, key: string): (r: Option<nat>)
    ensures r.Some? ==> r.value < |store| && EqualsIgnoreCase(store[r.value].name, key)
    ensures r.Some? ==> forall j :: 0 <= j < r.value ==> !EqualsIgnoreCase(store[j].name, key)
    ensures r.None? <==> forall j :: 0 <= j < |store| ==> !EqualsIgnoreCase(store[j].name, key)
    decreases |store|
  {
    if |store| == 0 then None
    else if EqualsIgnoreCase(store[0].name, key) then Some(0)
    else
      match FindCached(store[1..], key)
      case None => None
      case Some(i) => Some(i + 1)
  }

  /** The object the route hands to `Medicine.create` for a label found under `key`. */
  function ToInput(l: Label, key: string): MedicineInput {
    MedicineInput(
      Some(FirstNonEmpty([First(l.brandName)], key)),
      First(l.genericName),
      First(l.manufacturerName),
      First(l.indicationsAndUsage),
      First(l.activeIngredient),
      First(l.adverseReactions),
      Or(First(l.boxedWarning), First(l.warnings)),
      First(l.drugInteractions),
      First(l.dosageAndAdministration),
      First(l.contraindications),
      None)
  }

  /** The searches of the chain up to and including the first one that found a label. */
  predicate IsChainPrefix(queries: seq<SearchField>) {
    0 < |queries| <= |FallbackOrder| && queries == FallbackOrder[..|queries|]
  }

  /**
   * `GET /search/:name` with route parameter `param`. The key is the trimmed
   * parameter. A cache hit bumps that document's count by one, changes
   * nothing else and makes no label-API search. A miss runs the fallback
   * chain: nothing found gives 404 with the store unchanged; a label found
   * inserts exactly one new document with count 1, unless the document is
   * refused (500, store unchanged).
   */
  function Search(store: seq<MedicineRecord>, param: string, fetch: Fetch): (o: Outcome)
    ensures var key := Trim(param); var hit := FindCached(store, key);
      && (hit.Some? ==>
            && o.queries == []
            && |o.store| == |store|
            && o.store[hit.value] == store[hit.value].(searchCount := store[hit.value].searchCount + 1)
            && (forall j :: 0 <= j < |store| && j != hit.value ==> o.store[j] == store[j])
            && o.response == Found(Cache, o.store[hit.value]))
      && (hit.None? ==>
            && IsChainPrefix(o.queries)
            && o.queries == FetchFirst(fetch, key).1
            && (o.response.Found? ==> o.response.source == OpenFDA)
            && (o.response.NotFound? <==>
                  fetch(BrandName, key).None? && fetch(GenericName, key).None? && fetch(SubstanceName, key).None?))
    ensures o.response.NotFound? || o.response.ServerError? ==> o.store == store
    ensures o.response.Found? && o.response.source == OpenFDA ==>
              o.store == store + [o.response.data] && o.response.data.searchCount == 1
  {
    var key := Trim(param);
    match FindCached(store, key)
    case Some(i) => Hit(store, i)
    case None => Miss(store, key, fetch)
  }

  /** A cache hit on document `i`: its count goes up by one. */
  function Hit(store: seq<MedicineRecord>, i: nat): (o: Outcome)
    requires i < |store|
    ensures o.queries == [] && |o.store| == |store|
    ensures o.store[i] == store[i].(searchCount := store[i].searchCount + 1)
    ensures forall j :: 0 <= j < |store| && j != i ==> o.store[j] == store[j]
    ensures o.response == Found(Cache, o.store[i])
  {
    var rec := store[i].(searchCount := store[i].searchCount + 1);
    Outcome(store[i := rec], Found(Cache, rec), [])
  }

  /** A cache miss for `key`: the fallback chain, then at most one new document. */
  function Miss(store: seq<MedicineRecord>, key: string, fetch: Fetch): (o: Outcome)
    ensures IsChainPrefix(o.queries) && o.queries == FetchFirst(fetch, key).1
    ensures o.response.Found? ==> o.response.source == OpenFDA
    ensures o.response.NotFound? <==>
              fetch(BrandName, key).None? && fetch(GenericName, key).None? && fetch(SubstanceName, key).None?
    ensures o.response.NotFound? <==> FetchFirst(fetch, key).0.None?
    ensures o.response.ServerError? <==>
              FetchFirst(fetch, key).0.Some? && Create(ToInput(FetchFirst(fetch, key).0.value, key)).Failure?
    ensures o.response.Found? ==>
              FetchFirst(fetch, key).0.Some? && Create(ToInput(FetchFirst(fetch, key).0.value, key)) == Success(o.response.data)
    ensures o.response.NotFound? || o.response.ServerError? ==> o.store == store
    ensures o.response.Found? ==> o.store == store + [o.response.data] && o.response.data.searchCount == 1
  {
    FetchFirstOrder(fetch, key);
    var (found, queries) := FetchFirst(fetch, key);
    assert IsChainPrefix(queries);
    match found
    case None => Outcome(store, NotFound, queries)
    case Some(l) =>
      match Create(ToInput(l, key))
      case Failure(_) => Outcome(store, ServerError, queries)
      case Success(rec) => Outcome(store + [rec], Found(OpenFDA, rec), queries)
  }

  /** The route's document is refused exactly when its name, the brand name or else the key, is empty. */
  lemma RefusedExactlyForEmptyName(l: Label, key: string)
    ensures Create(ToInput(l, key)).Failure? <==> !Truthy(First(l.brandName)) && key == ""
  {
    assert Truthy(First(l.brandName)) ==> FirstTruthyAt([First(l.brandName)], 0);
  }

  // ---------------------------------------------------------------------
  // The document inserted on a miss
  // ---------------------------------------------------------------------

  /**
   * The document a miss inserts: its name is the label's first brand name if
   * non-empty, else the key; its count is 1; every other field is as
   * `MappedFrom` says.
   */
  lemma InsertedRecordFields(store: seq<MedicineRecord>, param: string, fetch: Fetch)
    ensures var o := Search(store, param, fetch); var key := Trim(param);
      o.response.Found? && o.response.source == OpenFDA ==>
        && FindCached(store, key).None?
        && FetchFirst(fetch, key).0.Some?
        && MappedFrom(o.response.data, FetchFirst(fetch, key).0.value, key)
  {
    var key := Trim(param);
    if FindCached(store, key).None? {
      var l := FetchFirst(fetch, key).0;
      if l.Some? && Create(ToInput(l.value, key)).Success? {
        CreatedFields(l.value, key);
      }
    }
  }

  /**
   * A refused document (the 500 path) happens only on a miss with a blank
   * key and a label without a non-empty brand name: the required name is
   * then the empty key.
   */
  lemma ServerErrorOnlyForBlankKey(store: seq<MedicineRecord>, param: string, fetch: Fetch)
    ensures var o := Search(store, param, fetch); var key := Trim(param);
      o.response.ServerError? <==>
        && FindCached(store, key).None?
        && key == ""
        && FetchFirst(fetch, key).0.Some?
        && !Truthy(First(FetchFirst(fetch, key).0.value.brandName))
  {
    var key := Trim(param);
    if FindCached(store, key).None? {
      var l := FetchFirst(fetch, key).0;
      if l.Some? {
        RefusedExactlyForEmptyName(l.value, key);
      }
    }
  }

  /**
   * The field mapping of the route, field by field: the name is the first
   * brand name if non-empty, else the key; the warnings are the boxed
   * warning if non-empty, else the plain warnings; every other field reads
   * only its own label field; an absent field gives the sentinel; the count
   * is 1.
   */
  predicate MappedFrom(rec: MedicineRecord, l: Label, key: string) {
    && rec.name == (if 0 < |l.brandName| && l.brandName[0] != "" then l.brandName[0] else key)
    && rec.warnings == (if 0 < |l.boxedWarning| && l.boxedWarning[0] != "" then l.boxedWarning[0]
                        else if 0 < |l.warnings| then l.warnings[0] else NotAvailable)
    && rec.genericName == (if 0 < |l.genericName| then l.genericName[0] else NotAvailable)
    && rec.manufacturer == (if 0 < |l.manufacturerName| then l.manufacturerName[0] else NotAvailable)
    && rec.purpose == (if 0 < |l.indicationsAndUsage| then l.indicationsAndUsage[0] else NotAvailable)
    && rec.ingredients == (if 0 < |l.activeIngredient| then l.activeIngredient[0] else NotAvailable)
    && rec.sideEffects == (if 0 < |l.adverseReactions| then l.adverseReactions[0] else NotAvailable)
    && rec.interactions == (if 0 < |l.drugInteractions| then l.drugInteractions[0] else NotAvailable)
    && rec.dosage == (if 0 < |l.dosageAndAdministration| then l.dosageAndAdministration[0] else NotAvailable)
    && rec.whoShouldAvoid == (if 0 < |l.contraindications| then l.contraindications[0] else NotAvailable)
    && rec.searchCount == 1
  }

  /** A document the route creates from a label follows the field mapping. */
  lemma CreatedFields(l: Label, key: string)
    requires Create(ToInput(l, key)).Success?
    ensures MappedFrom(Create(ToInput(l, key)).value, l, key)
  {
    assert Truthy(First(l.brandName)) ==> FirstTruthyAt([First(l.brandName)], 0);
  }

  /** Where a field's first candidate is non-empty, the client shows it. */
  lemma ClientFirstCandidates(l: Label)
    ensures var v := ClientSearch.ParseMedicineData(l);
      && (Truthy(First(l.brandName)) ==> v.name == l.brandName[0])
      && (Truthy(First(l.genericName)) ==> v.genericName == l.genericName[0])
      && (Truthy(First(l.manufacturerName)) ==> v.manufacturer == l.manufacturerName[0])
      && (Truthy(First(l.indicationsAndUsage)) ==> v.purpose == l.indicationsAndUsage[0])
      && (Truthy(First(l.activeIngredient)) ==> v.ingredients == l.activeIngredient[0])
      && (Truthy(First(l.adverseReactions)) ==> v.sideEffects == l.adverseReactions[0])
      && (Truthy(First(l.drugInteractions)) ==> v.interactions == l.drugInteractions[0])
      && (Truthy(First(l.dosageAndAdministration)) ==> v.dosage == l.dosageAndAdministration[0])
      && (Truthy(First(l.contraindications)) ==> v.whoShouldAvoid == l.contraindications[0])
      && (Truthy(Or(First(l.boxedWarning), First(l.warnings))) ==> v.warnings == Or(First(l.boxedWarning), First(l.warnings)).value)
  {
    var v := ClientSearch.ParseMedicineData(l);
    ClientSearch.ParsedName(l);
    ClientSearch.ParsedWarnings(l);
    if Truthy(First(l.genericName)) { FirstCandidateWins(v.genericName, [First(l.genericName)], MedicineModel.NotAvailable); }
    if Truthy(First(l.manufacturerName)) { FirstCandidateWins(v.manufacturer, [First(l.manufacturerName)], MedicineModel.NotAvailable); }
    if Truthy(First(l.indicationsAndUsage)) { FirstCandidateWins(v.purpose, ClientSearch.PurposeCandidates(l), MedicineModel.NotAvailable); }
    if Truthy(First(l.activeIngredient)) { FirstCandidateWins(v.ingredients, ClientSearch.IngredientCandidates(l), MedicineModel.NotAvailable); }
    if Truthy(First(l.adverseReactions)) { FirstCandidateWins(v.sideEffects, ClientSearch.SideEffectCandidates(l), MedicineModel.NotAvailable); }
    if Truthy(First(l.drugInteractions)) { FirstCandidateWins(v.interactions, [First(l.drugInteractions)], MedicineModel.NotAvailable); }
    if Truthy(First(l.dosageAndAdministration)) { FirstCandidateWins(v.dosage, [First(l.dosageAndAdministration)], MedicineModel.NotAvailable); }
    if Truthy(First(l.contraindications)) { FirstCandidateWins(v.whoShouldAvoid, ClientSearch.AvoidCandidates(l), MedicineModel.NotAvailable); }
  }

  /**
   * Where the server's single source for a field is non-empty, the client's
   * parse of the same label shows the same value; the client differs only
   * through its extra fallbacks and its "Unknown Medicine" name.
   */
  lemma ServerAgreesWithClient(l: Label, key: string)
    requires Create(ToInput(l, key)).Success?
    ensures var rec := Create(ToInput(l, key)).value; var v := ClientSearch.ParseMedicineData(l);
      && (Truthy(First(l.brandName)) ==> rec.name == v.name)
      && (Truthy(First(l.genericName)) ==> rec.genericName == v.genericName)
      && (Truthy(First(l.manufacturerName)) ==> rec.manufacturer == v.manufacturer)
      && (Truthy(First(l.indicationsAndUsage)) ==> rec.purpose == v.purpose)
      && (Truthy(First(l.activeIngredient)) ==> rec.ingredients == v.ingredients)
      && (Truthy(First(l.adverseReactions)) ==> rec.sideEffects == v.sideEffects)
      && (Truthy(Or(First(l.boxedWarning), First(l.warnings))) ==> rec.warnings == v.warnings)
      && (Truthy(First(l.drugInteractions)) ==> rec.interactions == v.interactions)
      && (Truthy(First(l.dosageAndAdministration)) ==> rec.dosage == v.dosage)
      && (Truthy(First(l.contraindications)) ==> rec.whoShouldAvoid == v.whoShouldAvoid)
  {
    CreatedFields(l, key);
    ClientFirstCandidates(l);
  }

  // ---------------------------------------------------------------------
  // Store invariants
  // ---------------------------------------------------------------------

  /** Every stored document has a non-empty name and a count of at least 1. */
  predicate ValidStore(store: seq<MedicineRecord>) {
    forall i :: 0 <= i < |store| ==> store[i].name != "" && store[i].searchCount >= 1
  }

  /** A search keeps every document named and counted. */
  lemma SearchKeepsStoreValid(store: seq<MedicineRecord>, param: string, fetch: Fetch)
    requires ValidStore(store)
    ensures ValidStore(Search(store, param, fetch).store)
  {
    var key := Trim(param);
    match FindCached(store, key)
    case Some(i) => HitKeepsStoreValid(store, i);
    case None => MissKeepsStoreValid(store, key, fetch);
  }

  lemma HitKeepsStoreValid(store: seq<MedicineRecord>, i: nat)
    requires ValidStore(store) && i < |store|
    ensures ValidStore(Hit(store, i).store)
  {
    var o := Hit(store, i);
    forall j | 0 <= j < |o.store|
      ensures o.store[j].name != "" && o.store[j].searchCount >= 1
    {
      if j != i {
        assert o.store[j] == store[j];
      }
    }
  }

  lemma MissKeepsStoreValid(store: seq<MedicineRecord>, key: string, fetch: Fetch)
    requires ValidStore(store)
    ensures ValidStore(Miss(store, key, fetch).store)
  {
    var o := Miss(store, key, fetch);
    if o.response.Found? {
      var rec := o.response.data;
      assert Create(ToInput(FetchFirst(fetch, key).0.value, key)) == Success(rec);
      forall j | 0 <= j < |o.store|
        ensures o.store[j].name != "" && o.store[j].searchCount >= 1
      {
        if j < |store| {
          assert o.store[j] == store[j];
        } else {
          assert o.store[j] == rec;
        }
      }
    }
  }

  /** The sum of the search counts of the store. */
  function TotalSearches(store: seq<MedicineRecord>): int
    decreases |store|
  {
    if |store| == 0 then 0 else TotalSearches(store[..|store| - 1]) + store[|store| - 1].searchCount
  }

  lemma {:induction false} TotalSearchesAppend(store: seq<MedicineRecord>, rec: MedicineRecord)
    ensures TotalSearches(store + [rec]) == TotalSearches(store) + rec.searchCount
  {
    assert (store + [rec])[..|store|] == store;
  }

  lemma {:induction false} TotalSearchesBump(store: seq<MedicineRecord>, i: nat)
    requires i < |store|
    ensures TotalSearches(store[i := store[i].(searchCount := store[i].searchCount + 1)]) == TotalSearches(store) + 1
    decreases |store|
  {
    var bumped := store[i := store[i].(searchCount := store[i].searchCount + 1)];
    var n := |store| - 1;
    if i < n {
      TotalSearchesBump(store[..n], i);
      assert bumped[..n] == store[..n][i := store[i].(searchCount := store[i].searchCount + 1)];
    } else {
      assert bumped[..n] == store[..n];
    }
  }

  /**
   * The counts add up to the searches answered with a document: each such
   * search adds exactly one to the total, a 404 or a 500 adds nothing.
   */
  lemma SearchCountsAnsweredSearches(store: seq<MedicineRecord>, param: string, fetch: Fetch)
    ensures var o := Search(store, param, fetch);
      TotalSearches(o.store) == TotalSearches(store) + (if o.response.Found? then 1 else 0)
  {
    var key := Trim(param);
    match FindCached(store, key)
    case Some(i) => HitCountsAnsweredSearch(store, i);
    case None => MissCountsAnsweredSearches(store, key, fetch);
  }

  lemma HitCountsAnsweredSearch(store: seq<MedicineRecord>, i: nat)
    requires i < |store|
    ensures TotalSearches(Hit(store, i).store) == TotalSearches(store) + 1
  {
    TotalSearchesBump(store, i);
    assert Hit(store, i).store == store[i := store[i].(searchCount := store[i].searchCount + 1)];
  }

  lemma MissCountsAnsweredSearches(store: seq<MedicineRecord>, key: string, fetch: Fetch)
    ensures var o := Miss(store, key, fetch);
      TotalSearches(o.store) == TotalSearches(store) + (if o.response.Found? then 1 else 0)
  {
    var o := Miss(store, key, fetch);
    if o.response.Found? {
      TotalSearchesAppend(store, o.response.data);
    }
  }

  // ---------------------------------------------------------------------
  // Repeated searches
  // ---------------------------------------------------------------------

  /**
   * When a miss stores a document under a name equal to the key ignoring
   * case, searching the same parameter again is a cache hit on that document:
   * no label-API search, and its count becomes 2.
   */
  lemma RepeatSearchHitsCache(store: seq<MedicineRecord>, param: string, fetch: Fetch)
    requires var o := Search(store, param, fetch);
      o.response.Found? && o.response.source == OpenFDA && EqualsIgnoreCase(o.response.data.name, Trim(param))
    ensures var o := Search(store, param, fetch); var o2 := Search(o.store, param, fetch);
      && o2.queries == []
      && o2.response == Found(Cache, o.response.data.(searchCount := 2))
      && |o2.store| == |o.store|
  {
    var key := Trim(param);
    assert FindCached(store, key).None?;
    StoredDocumentIsFound(store, key, fetch);
  }

  /** A document a miss stores under a name like the key is what the next lookup of the key finds. */
  lemma StoredDocumentIsFound(store: seq<MedicineRecord>, key: string, fetch: Fetch)
    requires FindCached(store, key).None?
    requires Miss(store, key, fetch).response.Found? && EqualsIgnoreCase(Miss(store, key, fetch).response.data.name, key)
    ensures FindCached(Miss(store, key, fetch).store, key) == Some(|store|)
  {
    var o := Miss(store, key, fetch);
    assert o.store[|store|] == o.response.data;
    forall j | 0 <= j < |store|
      ensures !EqualsIgnoreCase(o.store[j].name, key)
    {
      assert o.store[j] == store[j];
    }
  }

  /**
   * When a miss stores a document under the label's brand name and that name
   * differs from the key ignoring case, searching the same parameter again
   * misses the cache once more and, with the label API answering the same,
   * stores a second document with the same name: the cache does not prevent
   * duplicates.
   */
  lemma RepeatSearchDuplicates(store: seq<MedicineRecord>, param: string, fetch: Fetch)
    requires forall j :: 0 <= j < |store| ==> !EqualsIgnoreCase(store[j].name, Trim(param))
    requires var o := Search(store, param, fetch);
      o.response.Found? && o.response.source == OpenFDA && !EqualsIgnoreCase(o.response.data.name, Trim(param))
    ensures var o := Search(store, param, fetch); var o2 := Search(o.store, param, fetch);
      && o2.response.Found? && o2.response.source == OpenFDA
      && o2.store == store + [o.response.data, o2.response.data]
      && o2.response.data == o.response.data
  {
    var key := Trim(param);
    var o := Miss(store, key, fetch);
    NoNameLikeKeyAfterMiss(store, key, fetch);
    MissAgainAppends(store, key, fetch);
  }

  /** A miss that stores a document named unlike the key leaves no document named like the key. */
  lemma NoNameLikeKeyAfterMiss(store: seq<MedicineRecord>, key: string, fetch: Fetch)
    requires forall j :: 0 <= j < |store| ==> !EqualsIgnoreCase(store[j].name, key)
    requires Miss(store, key, fetch).response.Found? && !EqualsIgnoreCase(Miss(store, key, fetch).response.data.name, key)
    ensures FindCached(Miss(store, key, fetch).store, key).None?
  {
    var o := Miss(store, key, fetch);
    forall j | 0 <= j < |o.store|
      ensures !EqualsIgnoreCase(o.store[j].name, key)
    {
      if j < |store| {
        assert o.store[j] == store[j];
      }
    }
  }

  /** A second miss after a stored document answers the same and appends the same document again. */
  lemma MissAgainAppends(store: seq<MedicineRecord>, key: string, fetch: Fetch)
    requires Miss(store, key, fetch).response.Found?
    ensures var o := Miss(store, key, fetch); var o2 := Miss(o.store, key, fetch);
      o2.response == o.response && o2.store == store + [o.response.data, o.response.data]
  {
    var o := Miss(store, key, fetch);
    MissIgnoresStore(store, o.store, key, fetch);
    assert o.store + [o.response.data] == store + [o.response.data, o.response.data];
  }

  /** What a miss answers and which searches it makes do not depend on the store. */
  lemma MissIgnoresStore(s1: seq<MedicineRecord>, s2: seq<MedicineRecord>, key: string, fetch: Fetch)
    ensures Miss(s1, key, fetch).response == Miss(s2, key, fetch).response
    ensures Miss(s1, key, fetch).queries == Miss(s2, key, fetch).queries
  {
  }

  // ---------------------------------------------------------------------
  // GET /popular
  // ---------------------------------------------------------------------

  /** How many documents `/popular` returns at most. */
  const PopularLimit: nat := 10

  /** A document as `/popular` selects it: name and count only. */
  datatype PopularEntry = PopularEntry(name: string, searchCount: int)

  function Entries(store: seq<MedicineRecord>): (r: seq<PopularEntry>)
    ensures |r| == |store|
    ensures forall i :: 0 <= i < |store| ==> r[i] == PopularEntry(store[i].name, store[i].searchCount)
  {
    seq(|store|, i requires 0 <= i < |store| => PopularEntry(store[i].name, store[i].searchCount))
  }

  /** Counts do not increase along the sequence. */
  predicate SortedByCount(s: seq<PopularEntry>) {
    forall i, j :: 0 <= i < j < |s| ==> s[i].searchCount >= s[j].searchCount
  }

  /** Inserts an entry into a sorted sequence, before the entries with its count. */
  function InsertByCount(e: PopularEntry, s: seq<PopularEntry>): (r: seq<PopularEntry>)
    requires SortedByCount(s)
    ensures |r| == |s| + 1
    ensures SortedByCount(r)
    ensures multiset(r) == multiset(s) + multiset{e}
    decreases |s|
  {
    if |s| == 0 || e.searchCount >= s[0].searchCount then [e] + s
    else
      var rest := InsertByCount(e, s[1..]);
      assert s == [s[0]] + s[1..];
      InsertBehindHead(e, s, rest);
      [s[0]] + rest
  }

  /** Putting the head of a sorted sequence before a sorted rest that holds smaller counts keeps it sorted. */
  lemma InsertBehindHead(e: PopularEntry, s: seq<PopularEntry>, rest: seq<PopularEntry>)
    requires SortedByCount(s) && 0 < |s| && e.searchCount < s[0].searchCount
    requires SortedByCount(rest) && multiset(rest) == multiset(s[1..]) + multiset{e}
    ensures SortedByCount([s[0]] + rest)
  {
    var r := [s[0]] + rest;
    forall x | x in rest
      ensures s[0].searchCount >= x.searchCount
    {
      assert x in multiset(rest);
      if x != e {
        assert x in multiset(s[1..]);
        var j :| 0 <= j < |s[1..]| && s[1..][j] == x;
        assert s[j + 1] == x;
      }
    }
    forall i, j | 0 <= i < j < |r|
      ensures r[i].searchCount >= r[j].searchCount
    {
      if i == 0 {
        assert r[j] in rest;
      } else {
        assert r[i] == rest[i - 1] && r[j] == rest[j - 1];
      }
    }
  }

  /** `.sort({ searchCount: -1 })`: a sorted permutation (equal counts keep store order). */
  function SortByCount(s: seq<PopularEntry>): (r: seq<PopularEntry>)
    ensures |r| == |s|
    ensures SortedByCount(r)
    ensures multiset(r) == multiset(s)
    decreases |s|
  {
    if |s| == 0 then []
    else
      assert s == [s[0]] + s[1..];
      InsertByCount(s[0], SortByCount(s[1..]))
  }

  /**
   * `GET /popular`: at most ten entries drawn from the store, counts not
   * increasing, and no document left out has a higher count than one
   * returned.
   */
  function Popular(store: seq<MedicineRecord>): (r: seq<PopularEntry>)
    ensures |r| == if |store| < PopularLimit then |store| else PopularLimit
    ensures SortedByCount(r)
    ensures multiset(r) <= multiset(Entries(store))
    ensures forall x, y :: x in multiset(Entries(store)) - multiset(r) && y in r ==> x.searchCount <= y.searchCount
  {
    var entries := Entries(store);
    var sorted := SortByCount(entries);
    var k := if |sorted| < PopularLimit then |sorted| else PopularLimit;
    TopOfPermutation(entries, sorted, k);
    sorted[..k]
  }

  /** The first `k` entries of a sorted permutation are a top-`k` of the original. */
  lemma TopOfPermutation(entries: seq<PopularEntry>, sorted: seq<PopularEntry>, k: nat)
    requires SortedByCount(sorted) && multiset(sorted) == multiset(entries) && k <= |sorted|
    ensures SortedByCount(sorted[..k])
    ensures multiset(sorted[..k]) <= multiset(entries)
    ensures forall x, y :: x in multiset(entries) - multiset(sorted[..k]) && y in sorted[..k]
                          ==> x.searchCount <= y.searchCount
  {
    SplitMultiset(sorted, k);
    TopOfSorted(sorted, k);
    forall i, j | 0 <= i < j < k
      ensures sorted[..k][i].searchCount >= sorted[..k][j].searchCount
    {
      assert sorted[..k][i] == sorted[i] && sorted[..k][j] == sorted[j];
    }
  }

  /** Cutting a sequence splits its multiset into the two parts. */
  lemma SplitMultiset<T>(s: seq<T>, k: nat)
    requires k <= |s|
    ensures multiset(s[..k]) <= multiset(s)
    ensures multiset(s) - multiset(s[..k]) == multiset(s[k..])
  {
    assert s == s[..k] + s[k..];
    assert multiset(s) == multiset(s[..k]) + multiset(s[k..]);
  }

  /** The first `k` entries of a sorted sequence count at least as much as every entry after them. */
  lemma TopOfSorted(sorted: seq<PopularEntry>, k: nat)
    requires SortedByCount(sorted) && k <= |sorted|
    ensures forall x, y :: x in multiset(sorted[k..]) && y in sorted[..k] ==> x.searchCount <= y.searchCount
  {
    forall x, y | x in multiset(sorted[k..]) && y in sorted[..k]
      ensures x.searchCount <= y.searchCount
    {
      assert x in sorted[k..];
      var a :| 0 <= a < k && sorted[..k][a] == y;
      var b :| 0 <= b < |sorted| - k && sorted[k..][b] == x;
      assert sorted[a] == y && sorted[k + b] == x;
    }
  }
}
