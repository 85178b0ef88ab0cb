/** The startups API of lessons 8 to 13: the `/api` query-parameter filter and the
    `/api/:field/:term` path filter over the in-memory `startups` list. */
module Startups {
  import opened Wrappers
  import opened Seqs
  import opened JsStrings
  import opened Http

  datatype Address = Address(street: string, city: string, state: string)

  datatype Founder = Founder(name: string, role: string)

  /** `StartupTypes`. */
  datatype Startup = Startup(
    id: int, name: string, industry: string, founded: int, country: string, continent: string,
    businessAddress: Address, founders: seq<Founder>, employees: int, website: string,
    missionStatement: string, description: string, isSeekingFunding: bool, hasMvp: bool)

  /** The five query parameters; `None` is a parameter not given. */
  datatype StartupQuery = StartupQuery(
    industry: Option<string>, country: Option<string>, continent: Option<string>,
    isSeekingFunding: Option<string>, hasMvp: Option<string>)

  /** `JSON.parse` of a lower-cased flag once the JSON whitespace around it is gone. */
  function FlagOf(t: string): Option<bool> {
    if t == "true" then Some(true) else if t == "false" then Some(false) else None
  }

  /** `JSON.parse(s.toLocaleLowerCase())` on the values `"true" | "false"` the query type
      declares, in any case and with the whitespace JSON allows around a value. */
  function FlagValue(s: string): Option<bool> {
    FlagOf(Trim(ToLower(s), IsJsonWhiteSpace))
  }

  /** Every truthy flag parameter parses to a boolean. */
  predicate FlagsParse(q: StartupQuery) {
    (Truthy(q.isSeekingFunding) ==> FlagValue(q.isSeekingFunding.value).Some?) &&
    (Truthy(q.hasMvp) ==> FlagValue(q.hasMvp.value).Some?)
  }

  /** The three string fields a filter can name. */
  datatype Field = Industry | Country | Continent

  function FieldValue(x: Startup, f: Field): string {
    match f
    case Industry => x.industry
    case Country => x.country
    case Continent => x.continent
  }

  /** `item.<field>.toLowerCase() === term.toLowerCase()`. */
  function FieldMatches(f: Field, term: string): Startup -> bool {
    (x: Startup) => SameIgnoringCase(FieldValue(x, f), term)
  }

  /** The `k`-th filter of `/api` in code order (industry, country, continent,
      is_seeking_funding, has_mvp); a parameter not given lets every item through. */
  predicate Cond(q: StartupQuery, k: nat, x: Startup)
    requires FlagsParse(q)
  {
    match k
    case 0 => Truthy(q.industry) ==> SameIgnoringCase(x.industry, q.industry.value)
    case 1 => Truthy(q.country) ==> SameIgnoringCase(x.country, q.country.value)
    case 2 => Truthy(q.continent) ==> SameIgnoringCase(x.continent, q.continent.value)
    case 3 => Truthy(q.isSeekingFunding) ==> x.isSeekingFunding == FlagValue(q.isSeekingFunding.value).value
    case 4 => Truthy(q.hasMvp) ==> x.hasMvp == FlagValue(q.hasMvp.value).value
    case _ => true
  }

  function CondFn(q: StartupQuery, k: nat): Startup -> bool
    requires FlagsParse(q)
  {
    (x: Startup) => Cond(q, k, x)
  }

  /** The conjunction of the first `n` filters. */
  function MatchesFirst(q: StartupQuery, n: nat): Startup -> bool
    requires FlagsParse(q)
  {
    (x: Startup) => forall k :: 0 <= k < n ==> Cond(q, k, x)
  }

  /** An item satisfies every parameter given. */
  predicate MatchesQuery(q: StartupQuery, x: Startup)
    requires FlagsParse(q)
  {
    && (Truthy(q.industry) ==> SameIgnoringCase(x.industry, q.industry.value))
    && (Truthy(q.country) ==> SameIgnoringCase(x.country, q.country.value))
    && (Truthy(q.continent) ==> SameIgnoringCase(x.continent, q.continent.value))
    && (Truthy(q.isSeekingFunding) ==> x.isSeekingFunding == FlagValue(q.isSeekingFunding.value).value)
    && (Truthy(q.hasMvp) ==> x.hasMvp == FlagValue(q.hasMvp.value).value)
  }

  function Matches(q: StartupQuery): Startup -> bool
    requires FlagsParse(q)
  {
    (x: Startup) => MatchesQuery(q, x)
  }

  /** `if (param)` for the `k`-th parameter in code order. */
  predicate Given(q: StartupQuery, k: nat) {
    match k
    case 0 => Truthy(q.industry)
    case 1 => Truthy(q.country)
    case 2 => Truthy(q.continent)
    case 3 => Truthy(q.isSeekingFunding)
    case 4 => Truthy(q.hasMvp)
    case _ => false
  }

  /** One `if (param) filteredData = filteredData.filter(...)` step. */
  function Step(d: seq<Startup>, q: StartupQuery, k: nat): seq<Startup>
    requires FlagsParse(q)
  {
    if Given(q, k) then Keep(d, CondFn(q, k)) else d
  }

  /** A parameter not given filters nothing out. */
  lemma NotGivenPassesAll(q: StartupQuery, k: nat, x: Startup)
    requires FlagsParse(q)
    requires !Given(q, k)
    ensures Cond(q, k, x)
  {
  }

  /** A step turns the items matching the first `k` filters into those matching `k + 1`. */
  lemma StepExtends(s: seq<Startup>, q: StartupQuery, k: nat)
    requires FlagsParse(q)
    ensures Step(Keep(s, MatchesFirst(q, k)), q, k) == Keep(s, MatchesFirst(q, k + 1))
  {
    forall x
      ensures MatchesFirst(q, k + 1)(x) == (MatchesFirst(q, k)(x) && CondFn(q, k)(x))
    {
      if MatchesFirst(q, k)(x) && Cond(q, k, x) {
        assert forall j :: 0 <= j < k + 1 ==> Cond(q, j, x) by {
          forall j | 0 <= j < k + 1
            ensures Cond(q, j, x)
          {
            if j < k {
              assert MatchesFirst(q, k)(x);
            }
          }
        }
      }
    }
    if Given(q, k) {
      KeepKeep(s, MatchesFirst(q, k), CondFn(q, k), MatchesFirst(q, k + 1));
    } else {
      forall x
        ensures MatchesFirst(q, k + 1)(x) == MatchesFirst(q, k)(x)
      {
        NotGivenPassesAll(q, k, x);
      }
      KeepSame(s, MatchesFirst(q, k), MatchesFirst(q, k + 1));
    }
  }

  /** The first `n` steps, applied in code order. */
  function Steps(d: seq<Startup>, q: StartupQuery, n: nat): seq<Startup>
    requires FlagsParse(q)
  {
    if n == 0 then d else Step(Steps(d, q, n - 1), q, n - 1)
  }

  /** `/api` (lessons 8, 10 and 13): the five conditional filters in code order. */
  function FilterByQuery(startups: seq<Startup>, q: StartupQuery): seq<Startup>
    requires FlagsParse(q)
  {
    Steps(startups, q, 5)
  }

  /** After `n` steps exactly the items matching the first `n` filters are left. */
  lemma {:induction false} StepsKeepMatching(startups: seq<Startup>, q: StartupQuery, n: nat)
    requires FlagsParse(q)
    ensures Steps(startups, q, n) == Keep(startups, MatchesFirst(q, n))
  {
    if n == 0 {
      KeepNone(startups, q);
    } else {
      var k := n - 1;
      StepsKeepMatching(startups, q, k);
      StepExtends(startups, q, k);
      calc {
        Steps(startups, q, n);
        Step(Steps(startups, q, k), q, k);
        Step(Keep(startups, MatchesFirst(q, k)), q, k);
        Keep(startups, MatchesFirst(q, n));
      }
    }
  }

  lemma AllFiveAreTheQuery(q: StartupQuery)
    requires FlagsParse(q)
    ensures forall x :: MatchesFirst(q, 5)(x) == Matches(q)(x)
  {
    forall x
      ensures MatchesFirst(q, 5)(x) == Matches(q)(x)
    {
      assert Cond(q, 0, x) && Cond(q, 1, x) && Cond(q, 2, x) && Cond(q, 3, x) && Cond(q, 4, x)
        <==> MatchesQuery(q, x);
    }
  }

  /** The chain of filters is one filter on the conjunction of the parameters given. */
  lemma FilterByQueryIsOneFilter(startups: seq<Startup>, q: StartupQuery)
    requires FlagsParse(q)
    ensures FilterByQuery(startups, q) == Keep(startups, Matches(q))
  {
    StepsKeepMatching(startups, q, 5);
    AllFiveAreTheQuery(q);
    KeepSame(startups, MatchesFirst(q, 5), Matches(q));
  }

  /** No filter yet: every item matches the first zero filters. */
  lemma KeepNone(startups: seq<Startup>, q: StartupQuery)
    requires FlagsParse(q)
    ensures Keep(startups, MatchesFirst(q, 0)) == startups
  {
    assert forall i :: 0 <= i < |startups| ==> MatchesFirst(q, 0)(startups[i]);
  }

  /** The filtered list is an order-preserving subsequence whose every item satisfies every
      parameter given, and no matching item is dropped. */
  lemma FilterByQueryMeaning(startups: seq<Startup>, q: StartupQuery)
    requires FlagsParse(q)
    ensures IsSubsequence(FilterByQuery(startups, q), startups)
    ensures forall i :: 0 <= i < |FilterByQuery(startups, q)| ==> MatchesQuery(q, FilterByQuery(startups, q)[i])
    ensures forall j :: 0 <= j < |startups| && MatchesQuery(q, startups[j]) ==> startups[j] in FilterByQuery(startups, q)
  {
    FilterByQueryIsOneFilter(startups, q);
    KeepIsSubsequence(startups, Matches(q));
  }

  /** With no parameter given, or all of them empty, the whole list comes back unchanged. */
  lemma EmptyQueryKeepsAll(startups: seq<Startup>, q: StartupQuery)
    requires !Truthy(q.industry) && !Truthy(q.country) && !Truthy(q.continent)
    requires !Truthy(q.isSeekingFunding) && !Truthy(q.hasMvp)
    ensures FilterByQuery(startups, q) == startups
  {
    FilterByQueryIsOneFilter(startups, q);
  }

  /** The flag values are read case-insensitively: any spelling of "true" is `true`. */
  lemma FlagValueTrue(s: string)
    requires ToLower(s) == "true"
    ensures FlagValue(s) == Some(true)
  {
    TrimOfTrimmed(ToLower(s), IsJsonWhiteSpace);
  }

  lemma FlagValueFalse(s: string)
    requires ToLower(s) == "false"
    ensures FlagValue(s) == Some(false)
  {
    TrimOfTrimmed(ToLower(s), IsJsonWhiteSpace);
    FlagOfFalse(Trim(ToLower(s), IsJsonWhiteSpace));
  }

  lemma FlagOfFalse(t: string)
    requires t == "false"
    ensures FlagOf(t) == Some(false)
  {
    assert t[0] == 'f';
  }

  /** `allowedFields.includes(field)`: the exact, case-sensitive names. */
  function AllowedField(field: string): (r: Option<Field>)
    ensures r.Some? <==> field in ["country", "continent", "industry"]
  {
    if field == "country" then Some(Country)
    else if field == "continent" then Some(Continent)
    else if field == "industry" then Some(Industry)
    else None
  }

  /** What the startup routes send: a list of startups or an error message. */
  datatype StartupsReply = Listed(status: int, items: seq<Startup>) | Rejected(status: int, error: string)

  /** `/api/:field/:term` (lessons 10 and 12): a field outside the whitelist is refused with
      400, otherwise the items whose field equals `term` ignoring case, in their order. */
  function FilterByPath(startups: seq<Startup>, field: string, term: string): (r: StartupsReply)
    ensures r.Rejected? <==> field !in ["country", "continent", "industry"]
    ensures r.Rejected? ==> r == Rejected(400, "Only country, continent, and industry are supported")
    ensures r.Listed? ==> r.status == 200 && r.items == Keep(startups, FieldMatches(AllowedField(field).value, term))
  {
    match AllowedField(field)
    case None => Rejected(400, "Only country, continent, and industry are supported")
    case Some(f) => Listed(200, Keep(startups, FieldMatches(f, term)))
  }

  /** `getAllData` (lesson 13) and the inline `/api` handlers of lessons 8 and 10: the
      filtered list with status 200. */
  function GetAllData(startups: seq<Startup>, q: StartupQuery): (r: StartupsReply)
    requires FlagsParse(q)
    ensures r.Listed? && r.status == 200
    ensures r.items == Keep(startups, Matches(q))
    ensures IsSubsequence(r.items, startups)
  {
    FilterByQueryIsOneFilter(startups, q);
    KeepIsSubsequence(startups, Matches(q));
    Listed(200, FilterByQuery(startups, q))
  }

  /** The query that gives only the parameter named by `f`. */
  function QueryOn(f: Field, term: string): (q: StartupQuery)
    ensures FlagsParse(q)
  {
    match f
    case Industry => StartupQuery(Some(term), None, None, None, None)
    case Country => StartupQuery(None, Some(term), None, None, None)
    case Continent => StartupQuery(None, None, Some(term), None, None)
  }

  /** The path filter on an allowed field and the query filter on that one parameter agree. */
  lemma PathAgreesWithQuery(startups: seq<Startup>, field: string, term: string)
    requires term != []
    requires field in ["country", "continent", "industry"]
    ensures FilterByPath(startups, field, term) == GetAllData(startups, QueryOn(AllowedField(field).value, term))
  {
    var f := AllowedField(field).value;
    var q := QueryOn(f, term);
    forall x
      ensures FieldMatches(f, term)(x) == Matches(q)(x)
    {
    }
    KeepSame(startups, FieldMatches(f, term), Matches(q));
  }
}
