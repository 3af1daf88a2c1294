/**
 * The drug-label result returned by the external label API, the lookups the
 * app performs on it, and the brand/generic/substance fallback chain shared
 * by the client script and the server route.
 */
module Label {
  import opened Wrappers

  /**
   * The fields of one label result that the app reads. Each is a list of
   * strings as the API returns it; an absent field (or an absent `openfda`
   * object, for the first three) is the empty list, since `x?.[0]` reads both
   * the same way.
   */
  datatype Label = Label(
    brandName: seq<string>,
    genericName: seq<string>,
    manufacturerName: seq<string>,
    indicationsAndUsage: seq<string>,
    purpose: seq<string>,
    activeIngredient: seq<string>,
    splProductDataElements: seq<string>,
    adverseReactions: seq<string>,
    sideEffects: seq<string>,
    boxedWarning: seq<string>,
    warnings: seq<string>,
    warningsAndCautions: seq<string>,
    drugInteractions: seq<string>,
    dosageAndAdministration: seq<string>,
    contraindications: seq<string>,
    whenUsing: seq<string>)

  /** The `openfda` field a search matches the name against. */
  datatype SearchField = BrandName | GenericName | SubstanceName

  /** The external label API: what a search on a field for a name returns (`null` becomes `None`). */
  type Fetch = (SearchField, string) -> Option<Label>

  /** The order the fallback chain tries the fields in. */
  const FallbackOrder: seq<SearchField> := [BrandName, GenericName, SubstanceName]

  /** `field?.[0]`: the first element, absent for an absent or empty field. */
  function First(xs: seq<string>): (r: Option<string>)
    ensures r.Some? <==> 0 < |xs|
    ensures r.Some? ==> r.value == xs[0]
  {
    if |xs| == 0 then None else Some(xs[0])
  }

  /** JavaScript truthiness of an optional string: present and non-empty. */
  predicate Truthy(o: Option<string>) {
    o.Some? && o.value != ""
  }

  /** `a || b` on optional strings. */
  function Or(a: Option<string>, b: Option<string>): (r: Option<string>)
    ensures Truthy(a) ==> r == a
    ensures !Truthy(a) ==> r == b
  {
    if Truthy(a) then a else b
  }

  /** Candidate `i` is the first truthy one. */
  predicate FirstTruthyAt(candidates: seq<Option<string>>, i: int) {
    && 0 <= i < |candidates|
    && Truthy(candidates[i])
    && forall j :: 0 <= j < i ==> !Truthy(candidates[j])
  }

  /**
   * `value` is what `c0 || c1 || ... || fallback` evaluates to: the first
   * truthy candidate, or the fallback when there is none.
   */
  ghost predicate IsFirstNonEmpty(value: string, candidates: seq<Option<string>>, fallback: string) {
    && (forall i {:trigger FirstTruthyAt(candidates, i)} ::
          FirstTruthyAt(candidates, i) ==> value == candidates[i].value)
    && ((forall i :: 0 <= i < |candidates| ==> !Truthy(candidates[i])) ==> value == fallback)
  }

  /** A truthy first candidate decides the chain. */
  lemma FirstCandidateWins(value: string, candidates: seq<Option<string>>, fallback: string)
    requires IsFirstNonEmpty(value, candidates, fallback)
    requires 0 < |candidates| && Truthy(candidates[0])
    ensures value == candidates[0].value
  {
    assert FirstTruthyAt(candidates, 0);
  }

  /** `c0 || c1 || ... || fallback`, candidate by candidate; never empty when the fallback is not. */
  function FirstNonEmpty(candidates: seq<Option<string>>, fallback: string): (r: string)
    ensures IsFirstNonEmpty(r, candidates, fallback)
    ensures fallback != "" ==> r != ""
    decreases |candidates|
  {
    if |candidates| == 0 then fallback
    else if Truthy(candidates[0]) then candidates[0].value
    else
      var r := FirstNonEmpty(candidates[1..], fallback);
      assert forall i :: FirstTruthyAt(candidates, i) ==> i > 0 && FirstTruthyAt(candidates[1..], i - 1);
      r
  }

  /**
   * The fallback chain: query the fields in order and stop at the first
   * non-null result. Returns that result and the fields queried.
   */
  function Chain(fetch: Fetch, name: string, fields: seq<SearchField>): (r: (Option<Label>, seq<SearchField>))
    ensures |r.1| <= |fields| && r.1 == fields[..|r.1|]
    ensures forall k :: 0 <= k < |r.1| - 1 ==> fetch(r.1[k], name).None?
    ensures r.0.None? ==> r.1 == fields && forall k :: 0 <= k < |fields| ==> fetch(fields[k], name).None?
    ensures r.0.Some? ==> 0 < |r.1| && r.0 == fetch(r.1[|r.1| - 1], name)
    decreases |fields|
  {
    if |fields| == 0 then (None, [])
    else
      var hit := fetch(fields[0], name);
      if hit.Some? then (hit, [fields[0]])
      else
        var rest := Chain(fetch, name, fields[1..]);
        (rest.0, [fields[0]] + rest.1)
  }

  /** `fetch(brand) || fetch(generic) || fetch(substance)`, with the fields queried. */
  function FetchFirst(fetch: Fetch, name: string): (r: (Option<Label>, seq<SearchField>))
    ensures 0 < |r.1| <= 3
  {
    Chain(fetch, name, FallbackOrder)
  }

  /**
   * The chain in plain terms: brand first; generic only after brand gave
   * nothing; substance only after both gave nothing; no result exactly when
   * all three give nothing.
   */
  lemma FetchFirstOrder(fetch: Fetch, name: string)
    ensures var (r, q) := FetchFirst(fetch, name);
      && (fetch(BrandName, name).Some? ==> r == fetch(BrandName, name) && q == [BrandName])
      && (fetch(BrandName, name).None? && fetch(GenericName, name).Some?
          ==> r == fetch(GenericName, name) && q == [BrandName, GenericName])
      && (fetch(BrandName, name).None? && fetch(GenericName, name).None?
          ==> r == fetch(SubstanceName, name) && q == FallbackOrder)
      && (r.None? <==> fetch(BrandName, name).None? && fetch(GenericName, name).None? && fetch(SubstanceName, name).None?)
  {
    var (r, q) := FetchFirst(fetch, name);
    assert FallbackOrder[..1] == [BrandName];
    assert FallbackOrder[..2] == [BrandName, GenericName];
    assert FallbackOrder[..3] == FallbackOrder;
    if r.None? {
      assert fetch(FallbackOrder[0], name).None?;
      assert fetch(FallbackOrder[1], name).None?;
      assert fetch(FallbackOrder[2], name).None?;
    }
  }
}
