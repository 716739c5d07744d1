/** Provenance digests: the ranking, identity and company rules of opportunity digests, and the
    ranking and supersession rules of research digests. */
module Digests {
  import Cycles
  import Ranking
  import opened Sequences
  import Sorting

  const MAX_RANK := 10_000

  // ------------------------------------------------------------------ research

  datatype ResearchScores = ResearchScores(relevance: int, novelty: int, evidenceQuality: int, implementationCost: int,
                                           falsifiability: int)

  datatype Research = Research(id: string, rank: int, url: string, identifier: string, scores: ResearchScores,
                               supersedes: seq<string>)

  datatype ResearchError =
    | DuplicateResearchId(id: string)
    | DuplicateResearchUrl(id: string)
    | DuplicateIdentifier(id: string)
    | ResearchRankOutOfRange(id: string)
    | ResearchScoreOutOfRange(id: string)
    | BadResearchRanks
    | BadReference(reference: Cycles.ReferenceError)
    | SupersessionCycle(cycle: seq<string>)

  function ResearchComposite(s: ResearchScores): int {
    s.relevance * 30 + s.novelty * 20 + s.evidenceQuality * 25 + (100 - s.implementationCost) * 10
    + s.falsifiability * 15
  }

  predicate RankInRange(rank: int) {
    1 <= rank <= MAX_RANK
  }

  predicate ScoreInRange(score: int) {
    0 <= score <= 100
  }

  predicate ResearchScoresInRange(s: ResearchScores) {
    && ScoreInRange(s.relevance) && ScoreInRange(s.novelty) && ScoreInRange(s.evidenceQuality)
    && ScoreInRange(s.implementationCost) && ScoreInRange(s.falsifiability)
  }

  function ResearchEntry(r: Research): Ranking.Entry {
    Ranking.Entry(r.rank, [Sorting.Number(-ResearchComposite(r.scores)), Sorting.Name(r.id)])
  }

  function ResearchEntries(items: seq<Research>): seq<Ranking.Entry> {
    seq(|items|, i requires 0 <= i < |items| => ResearchEntry(items[i]))
  }

  function IdOf(r: Research): string {
    r.id
  }

  function UrlOf(r: Research): string {
    r.url
  }

  function IdentifierOf(r: Research): string {
    r.identifier
  }

  /** Item `i` is in range and shares its id, address and stable identifier with no earlier item. */
  ghost predicate ResearchFits(items: seq<Research>, i: int)
    requires 0 <= i < |items|
  {
    && RankInRange(items[i].rank) && ResearchScoresInRange(items[i].scores)
    && !TakenBefore(IdOf, items, i, items[i].id)
    && !TakenBefore(UrlOf, items, i, items[i].url)
    && !TakenBefore(IdentifierOf, items, i, items[i].identifier)
  }

  ghost predicate AllResearchFits(items: seq<Research>) {
    forall i :: 0 <= i < |items| ==> ResearchFits(items, i)
  }

  function Supersession(items: seq<Research>): Cycles.Graph {
    if items == [] then map[]
    else Supersession(items[..|items| - 1])[items[|items| - 1].id := items[|items| - 1].supersedes]
  }

  /** What acceptance of a research digest means. */
  ghost predicate ResearchAccepted(items: seq<Research>) {
    && AllResearchFits(items)
    && Ranking.WellRanked(ResearchEntries(items))
    && Cycles.ReferencesKnown(Supersession(items), Supersession(items).Keys)
    && Cycles.Acyclic(Supersession(items))
  }

  lemma {:induction false} ResearchKeysDistinct(items: seq<Research>)
    requires AllResearchFits(items)
    ensures Sorting.DistinctKeys(Ranking.KeyOf, ResearchEntries(items))
  {
    forall i, j | 0 <= i < j < |items| ensures ResearchEntries(items)[i].key != ResearchEntries(items)[j].key {
      assert ResearchFits(items, j) && IdOf(items[i]) == items[i].id;
      assert ResearchEntry(items[i]).key[1].text == items[i].id && ResearchEntry(items[j]).key[1].text == items[j].id;
    }
  }

  datatype Known = Known(ids: set<string>, urls: set<string>, identifiers: set<string>)

  function ResearchErrors(known: Known, item: Research): seq<ResearchError> {
    (if item.id in known.ids then [DuplicateResearchId(item.id)] else [])
    + (if RankInRange(item.rank) then [] else [ResearchRankOutOfRange(item.id)])
    + (if item.url in known.urls then [DuplicateResearchUrl(item.id)] else [])
    + (if item.identifier in known.identifiers then [DuplicateIdentifier(item.id)] else [])
    + (if ResearchScoresInRange(item.scores) then [] else [ResearchScoreOutOfRange(item.id)])
  }

  function AddKnown(known: Known, item: Research): Known {
    Known(known.ids + {item.id}, known.urls + {item.url}, known.identifiers + {item.identifier})
  }

  ghost predicate AllCollected(known: Known, items: seq<Research>, n: int)
    requires 0 <= n <= |items|
  {
    && Collected(known.ids, IdOf, items, n)
    && Collected(known.urls, UrlOf, items, n)
    && Collected(known.identifiers, IdentifierOf, items, n)
  }

  lemma {:induction false} ResearchErrorsAreExact(items: seq<Research>, i: int, known: Known)
    requires 0 <= i < |items| && AllCollected(known, items, i)
    ensures ResearchErrors(known, items[i]) == [] <==> ResearchFits(items, i)
    ensures AllCollected(AddKnown(known, items[i]), items, i + 1)
  {
    hide TakenBefore, RankInRange, ResearchScoresInRange;
    CollectMore(known.ids, IdOf, items, i);
    CollectMore(known.urls, UrlOf, items, i);
    CollectMore(known.identifiers, IdentifierOf, items, i);
  }

  /** The pass over the items. */
  method IndexResearch(items: seq<Research>)
    returns (errors: seq<ResearchError>, order: seq<string>, supersession: Cycles.Graph, entries: seq<Ranking.Entry>)
    ensures errors == [] <==> AllResearchFits(items)
    ensures supersession == Supersession(items) && supersession.Keys == Elements(order)
    ensures errors == [] ==> entries == ResearchEntries(items)
  {
    hide Supersession, ResearchEntries, ResearchErrors, ResearchFits, AllCollected, ResearchScoresInRange, RankInRange;
    errors, order, supersession, entries := [], [], map[], [];
    var known := Known({}, {}, {});
    StartOfResearch(items);
    for i := 0 to |items|
      invariant errors == [] <==> forall k :: 0 <= k < i ==> ResearchFits(items, k)
      invariant supersession == Supersession(items[..i])
      invariant supersession.Keys == known.ids == Elements(order)
      invariant AllCollected(known, items, i)
      invariant errors == [] ==> entries == ResearchEntries(items[..i])
    {
      var item := items[i];
      ResearchErrorsAreExact(items, i, known);
      MoreResearch(items, i);
      errors := errors + ResearchErrors(known, item);
      order := if item.id in known.ids then order else order + [item.id];
      known := AddKnown(known, item);
      supersession := supersession[item.id := item.supersedes];
      if RankInRange(item.rank) && ResearchScoresInRange(item.scores) {
        entries := entries + [ResearchEntry(item)];
      }
    }
    assert items[..|items|] == items;
  }

  /** Validation accepts exactly the digests that are ranked by composite score and id, and whose
      supersession is known, irreflexive and acyclic. */
  method ValidateResearch(items: seq<Research>) returns (errors: seq<ResearchError>)
    ensures errors == [] <==> ResearchAccepted(items)
  {
    hide Supersession, ResearchEntries, AllResearchFits, Ranking.WellRanked, Sorting.DistinctKeys,
      Cycles.ReferencesKnown, Cycles.Acyclic;
    var order, supersession, entries;
    errors, order, supersession, entries := IndexResearch(items);
    if errors == [] {
      ResearchKeysDistinct(items);
      assert |ResearchEntries(items)| == |items| by { EntryPerItem(items); }
    }
    var rankErrors := Ranking.CheckRanks(entries, |items|);
    if rankErrors != [] {
      errors := errors + [BadResearchRanks];
    }
    var referenceErrors := Cycles.CheckReferences(supersession, order, Elements(order));
    if referenceErrors != [] {
      errors := errors + [BadReference(referenceErrors[0])];
    }
    var cycles := Cycles.FindCycles(supersession, order);
    if cycles != [] {
      errors := errors + [SupersessionCycle(cycles[0])];
    }
  }

  lemma {:induction false} EntryPerItem(items: seq<Research>)
    ensures |ResearchEntries(items)| == |items|
  {
  }

  lemma {:induction false} StartOfResearch(items: seq<Research>)
    ensures Supersession(items[..0]) == map[] && ResearchEntries(items[..0]) == []
    ensures AllCollected(Known({}, {}, {}), items, 0)
  {
  }

  lemma {:induction false} MoreResearch(items: seq<Research>, i: int)
    requires 0 <= i < |items|
    ensures Supersession(items[..i + 1]) == Supersession(items[..i])[items[i].id := items[i].supersedes]
    ensures ResearchEntries(items[..i + 1]) == ResearchEntries(items[..i]) + [ResearchEntry(items[i])]
    ensures ResearchFits(items, i) ==> RankInRange(items[i].rank) && ResearchScoresInRange(items[i].scores)
  {
    assert items[..i + 1][..i] == items[..i];
  }

  /** The scores and ids of an accepted research digest determine its ranks. */
  lemma {:induction false} ResearchRankingIsUnique(a: seq<Research>, b: seq<Research>)
    requires ResearchAccepted(a) && ResearchAccepted(b)
    requires |a| == |b| && forall i :: 0 <= i < |a| ==> a[i] == b[i].(rank := a[i].rank)
    ensures a == b
  {
    hide AllResearchFits, Ranking.WellRanked, Cycles.ReferencesKnown, Cycles.Acyclic;
    Ranking.RankingIsUnique(ResearchEntries(a), ResearchEntries(b));
    forall i | 0 <= i < |a| ensures a[i] == b[i] {
      assert ResearchEntries(a)[i] == ResearchEntries(b)[i];
    }
  }

  /** Accepted ranks are the order of composite score, highest first, and then of ids. */
  lemma {:induction false} ResearchRanksFollowScores(items: seq<Research>, i: nat, j: nat)
    requires ResearchAccepted(items) && i < |items| && j < |items|
    ensures var a, b := ResearchComposite(items[i].scores), ResearchComposite(items[j].scores);
            items[i].rank < items[j].rank
            <==> a > b || (a == b && Sorting.PartLess(Sorting.Name(items[i].id), Sorting.Name(items[j].id)))
  {
    hide AllResearchFits, Ranking.WellRanked, Cycles.ReferencesKnown, Cycles.Acyclic, ResearchComposite,
      Sorting.Before, Sorting.PartLess;
    var entries := ResearchEntries(items);
    assert entries[i] == ResearchEntry(items[i]) && entries[j] == ResearchEntry(items[j]);
    Ranking.RankFollowsKey(entries, i, j);
    Sorting.BeforeOfPairs(entries[i].key, entries[j].key);
    Sorting.NumbersCompare(-ResearchComposite(items[i].scores), -ResearchComposite(items[j].scores));
  }

  /** What the scores weigh against each other, in points of implementation cost, which count against an item:
      relevance three, novelty two, evidence two and a half, falsifiability one and a half. In range they give
      0 to 10000, which only the best scores reach. */
  lemma {:induction false} ResearchScoresTrade(s: ResearchScores, n: int)
    ensures ResearchComposite(s.(relevance := s.relevance + n))
            == ResearchComposite(s.(implementationCost := s.implementationCost - 3 * n))
    ensures ResearchComposite(s.(novelty := s.novelty + n))
            == ResearchComposite(s.(implementationCost := s.implementationCost - 2 * n))
    ensures ResearchComposite(s.(evidenceQuality := s.evidenceQuality + 2 * n))
            == ResearchComposite(s.(implementationCost := s.implementationCost - 5 * n))
    ensures ResearchComposite(s.(falsifiability := s.falsifiability + 2 * n))
            == ResearchComposite(s.(implementationCost := s.implementationCost - 3 * n))
    ensures ResearchScoresInRange(s) ==> 0 <= ResearchComposite(s) <= 10_000
    ensures ResearchScoresInRange(s) ==>
              (ResearchComposite(s) == 10_000 <==> s == ResearchScores(100, 100, 100, 0, 100))
  {
  }

  /** One item fits exactly when its rank and scores are in range and no earlier item shares its id, address or
      stable identifier. */
  lemma {:induction false} ResearchFitsIff(items: seq<Research>, i: nat)
    requires i < |items|
    ensures var (item, scores) := (items[i], items[i].scores);
            ResearchFits(items, i) <==>
            && 1 <= item.rank <= 10_000
            && 0 <= scores.relevance <= 100 && 0 <= scores.novelty <= 100 && 0 <= scores.evidenceQuality <= 100
            && 0 <= scores.implementationCost <= 100 && 0 <= scores.falsifiability <= 100
            && forall j :: 0 <= j < i ==>
                 items[j].id != item.id && items[j].url != item.url && items[j].identifier != item.identifier
  {
    forall j | 0 <= j < i
      ensures IdOf(items[j]) == items[j].id && UrlOf(items[j]) == items[j].url
              && IdentifierOf(items[j]) == items[j].identifier
    {
    }
  }

  // ------------------------------------------------------------- opportunities

  datatype Opportunity = Opportunity(id: string, rank: int, company: string, requisition: string, url: string,
                                     score: int, fiducia: seq<string>)

  datatype OpportunityError =
    | DuplicateOpportunityId(id: string)
    | OpportunityRankOutOfRange(id: string)
    | OpportunityScoreOutOfRange(id: string)
    | DuplicateUrl(id: string)
    | DuplicateRequisition(id: string)
    | InconsistentFiduciaSet(id: string)
    | BadOpportunityRanks
    | WrongRoleCount(company: string)

  function OpportunityEntry(o: Opportunity): Ranking.Entry {
    Ranking.Entry(o.rank, [Sorting.Number(-o.score), Sorting.Name(o.company), Sorting.Name(o.requisition)])
  }

  function OpportunityEntries(items: seq<Opportunity>): seq<Ranking.Entry> {
    seq(|items|, i requires 0 <= i < |items| => OpportunityEntry(items[i]))
  }

  predicate OpportunityInRange(o: Opportunity) {
    RankInRange(o.rank) && ScoreInRange(o.score)
  }

  /** Two records that may stand in one digest: they differ in id, address and requisition, and agree
      on the Fiducia opportunities of a common company. */
  predicate Compatible(a: Opportunity, b: Opportunity) {
    && a.id != b.id && a.url != b.url && (a.company != b.company || a.requisition != b.requisition)
    && (a.company == b.company ==> multiset(a.fiducia) == multiset(b.fiducia))
  }

  ghost predicate OpportunityFits(items: seq<Opportunity>, i: int)
    requires 0 <= i < |items|
  {
    OpportunityInRange(items[i]) && forall j :: 0 <= j < i ==> Compatible(items[j], items[i])
  }

  function Roles(items: seq<Opportunity>, company: string): nat {
    if items == [] then 0
    else Roles(items[..|items| - 1], company) + (if items[|items| - 1].company == company then 1 else 0)
  }

  /** A company with Fiducia opportunities has exactly 2 or 3 job roles. */
  ghost predicate RoleCountFits(items: seq<Opportunity>, o: Opportunity) {
    o.fiducia != [] ==> 2 <= Roles(items, o.company) <= 3
  }

  ghost predicate OpportunitiesAccepted(items: seq<Opportunity>) {
    && (forall i :: 0 <= i < |items| ==> OpportunityFits(items, i))
    && Ranking.WellRanked(OpportunityEntries(items))
    && forall i :: 0 <= i < |items| ==> RoleCountFits(items, items[i])
  }

  datatype Seen = Seen(ids: set<string>, urls: set<string>, requisitions: set<(string, string)>,
                       roles: map<string, nat>, fiducia: map<string, multiset<string>>)

  function OpportunityErrors(seen: Seen, o: Opportunity): seq<OpportunityError> {
    (if o.id in seen.ids then [DuplicateOpportunityId(o.id)] else [])
    + (if RankInRange(o.rank) then [] else [OpportunityRankOutOfRange(o.id)])
    + (if o.url in seen.urls then [DuplicateUrl(o.id)] else [])
    + (if (o.company, o.requisition) in seen.requisitions then [DuplicateRequisition(o.id)] else [])
    + (if ScoreInRange(o.score) then [] else [OpportunityScoreOutOfRange(o.id)])
    + (if o.company in seen.fiducia && seen.fiducia[o.company] != multiset(o.fiducia)
       then [InconsistentFiduciaSet(o.id)] else [])
  }

  function Note(seen: Seen, o: Opportunity): Seen {
    Seen(seen.ids + {o.id}, seen.urls + {o.url}, seen.requisitions + {(o.company, o.requisition)},
         seen.roles[o.company := (if o.company in seen.roles then seen.roles[o.company] else 0) + 1],
         if o.company in seen.fiducia then seen.fiducia else seen.fiducia[o.company := multiset(o.fiducia)])
  }

  ghost predicate HasId(items: seq<Opportunity>, n: int, id: string)
    requires 0 <= n <= |items|
  {
    exists i :: 0 <= i < n && items[i].id == id
  }

  ghost predicate HasUrl(items: seq<Opportunity>, n: int, url: string)
    requires 0 <= n <= |items|
  {
    exists i :: 0 <= i < n && items[i].url == url
  }

  ghost predicate HasRequisition(items: seq<Opportunity>, n: int, requisition: (string, string))
    requires 0 <= n <= |items|
  {
    exists i :: 0 <= i < n && (items[i].company, items[i].requisition) == requisition
  }

  ghost predicate HasCompany(items: seq<Opportunity>, n: int, company: string)
    requires 0 <= n <= |items|
  {
    exists i :: 0 <= i < n && items[i].company == company
  }

  /** What has been noted after the first `n` records. */
  ghost predicate Notes(seen: Seen, items: seq<Opportunity>, n: int)
    requires 0 <= n <= |items|
  {
    && (forall id :: id in seen.ids <==> HasId(items, n, id))
    && (forall url :: url in seen.urls <==> HasUrl(items, n, url))
    && (forall requisition :: requisition in seen.requisitions <==> HasRequisition(items, n, requisition))
    && (forall company :: CompanyNoted(seen, items, n, company))
  }

  ghost predicate CompanyNoted(seen: Seen, items: seq<Opportunity>, n: int, company: string)
    requires 0 <= n <= |items|
  {
    && (company in seen.roles <==> HasCompany(items, n, company))
    && (company in seen.fiducia <==> HasCompany(items, n, company))
    && (company in seen.roles ==> seen.roles[company] == Roles(items[..n], company))
  }

  ghost predicate FiduciaNoted(seen: Seen, items: seq<Opportunity>, n: int)
    requires 0 <= n <= |items|
  {
    forall i :: 0 <= i < n ==>
      items[i].company in seen.fiducia && seen.fiducia[items[i].company] == multiset(items[i].fiducia)
  }

  lemma {:induction false} NoErrorsMeansCompatible(seen: Seen, items: seq<Opportunity>, i: int, j: int)
    requires 0 <= j < i < |items| && Notes(seen, items, i) && FiduciaNoted(seen, items, i)
    requires OpportunityErrors(seen, items[i]) == []
    ensures Compatible(items[j], items[i])
  {
    hide CompanyNoted;
    assert HasId(items, i, items[j].id) && HasUrl(items, i, items[j].url);
    assert HasRequisition(items, i, (items[j].company, items[j].requisition));
  }

  lemma {:induction false} CompatibleMeansNoErrors(seen: Seen, items: seq<Opportunity>, i: int)
    requires 0 <= i < |items| && Notes(seen, items, i) && FiduciaNoted(seen, items, i) && OpportunityFits(items, i)
    ensures OpportunityErrors(seen, items[i]) == []
  {
    hide Roles;
    var o := items[i];
    assert !HasId(items, i, o.id) && !HasUrl(items, i, o.url) && !HasRequisition(items, i, (o.company, o.requisition));
    assert CompanyNoted(seen, items, i, o.company);
    if o.company in seen.fiducia {
      var j :| 0 <= j < i && items[j].company == o.company;
      assert Compatible(items[j], o);
    }
  }

  lemma {:induction false} OpportunityErrorsAreExact(seen: Seen, items: seq<Opportunity>, i: int)
    requires 0 <= i < |items| && Notes(seen, items, i) && FiduciaNoted(seen, items, i)
    ensures OpportunityErrors(seen, items[i]) == [] <==> OpportunityFits(items, i)
  {
    hide Notes, FiduciaNoted, Compatible;
    if OpportunityErrors(seen, items[i]) == [] {
      forall j | 0 <= j < i ensures Compatible(items[j], items[i]) {
        NoErrorsMeansCompatible(seen, items, i, j);
      }
    }
    if OpportunityFits(items, i) {
      CompatibleMeansNoErrors(seen, items, i);
    }
  }

  lemma {:induction false} HasMore(items: seq<Opportunity>, i: int, id: string, url: string,
                                   requisition: (string, string), company: string)
    requires 0 <= i < |items|
    ensures HasId(items, i + 1, id) <==> HasId(items, i, id) || items[i].id == id
    ensures HasUrl(items, i + 1, url) <==> HasUrl(items, i, url) || items[i].url == url
    ensures HasRequisition(items, i + 1, requisition) <==>
            HasRequisition(items, i, requisition) || (items[i].company, items[i].requisition) == requisition
    ensures HasCompany(items, i + 1, company) <==> HasCompany(items, i, company) || items[i].company == company
    ensures Roles(items[..i + 1], company) ==
            Roles(items[..i], company) + (if items[i].company == company then 1 else 0)
  {
    assert items[..i + 1][..i] == items[..i];
  }

  lemma {:induction false} NoRolesWithoutCompany(items: seq<Opportunity>, n: int, company: string)
    requires 0 <= n <= |items|
    ensures HasCompany(items, n, company) <==> Roles(items[..n], company) > 0
  {
    if n > 0 {
      NoRolesWithoutCompany(items, n - 1, company);
      HasMore(items, n - 1, "", "", ("", ""), company);
    }
  }

  lemma {:induction false} CompanyNotedMore(seen: Seen, items: seq<Opportunity>, i: int, company: string)
    requires 0 <= i < |items| && CompanyNoted(seen, items, i, company)
    ensures CompanyNoted(Note(seen, items[i]), items, i + 1, company)
  {
    hide HasCompany, Roles;
    HasMore(items, i, "", "", ("", ""), company);
    NoRolesWithoutCompany(items, i, company);
  }

  lemma {:induction false} NotesMore(seen: Seen, items: seq<Opportunity>, i: int)
    requires 0 <= i < |items| && Notes(seen, items, i)
    ensures Notes(Note(seen, items[i]), items, i + 1)
  {
    hide HasId, HasUrl, HasRequisition, CompanyNoted;
    var more := Note(seen, items[i]);
    assert more.ids == seen.ids + {items[i].id} && more.urls == seen.urls + {items[i].url};
    assert more.requisitions == seen.requisitions + {(items[i].company, items[i].requisition)};
    hide Note;
    forall id ensures id in more.ids <==> HasId(items, i + 1, id) {
      HasMore(items, i, id, "", ("", ""), "");
    }
    forall url ensures url in more.urls <==> HasUrl(items, i + 1, url) {
      HasMore(items, i, "", url, ("", ""), "");
    }
    forall requisition ensures requisition in more.requisitions <==> HasRequisition(items, i + 1, requisition) {
      HasMore(items, i, "", "", requisition, "");
    }
    var n := i + 1;
    forall company ensures CompanyNoted(more, items, n, company) {
      CompanyNotedMore(seen, items, i, company);
    }
  }

  lemma {:induction false} FiduciaNotedMore(seen: Seen, items: seq<Opportunity>, i: int)
    requires 0 <= i < |items| && Notes(seen, items, i) && FiduciaNoted(seen, items, i) && OpportunityFits(items, i)
    ensures FiduciaNoted(Note(seen, items[i]), items, i + 1)
  {
    hide HasId, HasUrl, HasRequisition, Roles;
    assert CompanyNoted(seen, items, i, items[i].company);
    if items[i].company in seen.fiducia {
      var j :| 0 <= j < i && items[j].company == items[i].company;
      assert Compatible(items[j], items[i]);
    }
  }

  lemma {:induction false} NothingNoted(items: seq<Opportunity>)
    ensures Notes(Seen({}, {}, {}, map[], map[]), items, 0)
  {
  }

  lemma {:induction false} OpportunityKeysDistinct(items: seq<Opportunity>)
    requires forall i :: 0 <= i < |items| ==> OpportunityFits(items, i)
    ensures Sorting.DistinctKeys(Ranking.KeyOf, OpportunityEntries(items))
  {
    forall i, j | 0 <= i < j < |items| ensures OpportunityEntries(items)[i].key != OpportunityEntries(items)[j].key {
      assert OpportunityFits(items, j) && Compatible(items[i], items[j]);
      var a, b := OpportunityEntry(items[i]).key, OpportunityEntry(items[j]).key;
      assert a[1].text == items[i].company && b[1].text == items[j].company;
      assert a[2].text == items[i].requisition && b[2].text == items[j].requisition;
    }
  }

  lemma {:induction false} MoreOpportunityEntries(items: seq<Opportunity>, i: int)
    requires 0 <= i < |items|
    ensures OpportunityEntries(items[..i + 1]) == OpportunityEntries(items[..i]) + [OpportunityEntry(items[i])]
    ensures OpportunityFits(items, i) ==> OpportunityInRange(items[i])
  {
  }

  /** The pass over the records. */
  method NoteOpportunities(items: seq<Opportunity>)
    returns (errors: seq<OpportunityError>, seen: Seen, entries: seq<Ranking.Entry>)
    ensures errors == [] <==> forall i :: 0 <= i < |items| ==> OpportunityFits(items, i)
    ensures Notes(seen, items, |items|)
    ensures errors == [] ==> FiduciaNoted(seen, items, |items|) && entries == OpportunityEntries(items)
  {
    hide Notes, OpportunityFits, OpportunityErrors, Note, OpportunityEntry, OpportunityInRange;
    errors, seen, entries := [], Seen({}, {}, {}, map[], map[]), [];
    NothingNoted(items);
    assert OpportunityEntries(items[..0]) == [];
    for i := 0 to |items|
      invariant errors == [] <==> forall k :: 0 <= k < i ==> OpportunityFits(items, k)
      invariant Notes(seen, items, i)
      invariant errors == [] ==> FiduciaNoted(seen, items, i) && entries == OpportunityEntries(items[..i])
    {
      hide FiduciaNoted, OpportunityEntries;
      var o := items[i];
      if errors == [] {
        OpportunityErrorsAreExact(seen, items, i);
        if OpportunityFits(items, i) {
          FiduciaNotedMore(seen, items, i);
        }
      }
      NotesMore(seen, items, i);
      MoreOpportunityEntries(items, i);
      errors := errors + OpportunityErrors(seen, o);
      seen := Note(seen, o);
      if OpportunityInRange(o) {
        entries := entries + [OpportunityEntry(o)];
      }
    }
    assert items[..|items|] == items;
  }

  ghost predicate CompanyFits(seen: Seen, company: string)
    requires company in seen.fiducia
  {
    seen.fiducia[company] != multiset{} ==> company in seen.roles && 2 <= seen.roles[company] <= 3
  }

  /** The rule about job roles, company by company. */
  method CheckRoles(seen: Seen) returns (errors: seq<OpportunityError>, fiduciaCompanies: set<string>)
    ensures errors == [] <==> forall company :: company in seen.fiducia ==> CompanyFits(seen, company)
    ensures fiduciaCompanies == set company | company in seen.fiducia && seen.fiducia[company] != multiset{}
  {
    errors, fiduciaCompanies := [], {};
    var rest := seen.fiducia.Keys;
    while rest != {}
      invariant rest <= seen.fiducia.Keys
      invariant errors == [] <==>
                forall company :: company in seen.fiducia && company !in rest ==> CompanyFits(seen, company)
      invariant fiduciaCompanies ==
                set company | company in seen.fiducia && company !in rest && seen.fiducia[company] != multiset{}
      decreases |rest|
    {
      var company :| company in rest;
      rest := rest - {company};
      if seen.fiducia[company] != multiset{} {
        fiduciaCompanies := fiduciaCompanies + {company};
        var roles := if company in seen.roles then seen.roles[company] else 0;
        if roles !in {2, 3} {
          errors := errors + [WrongRoleCount(company)];
        }
      }
    }
  }

  lemma {:induction false} CompaniesFitIffRolesFit(seen: Seen, items: seq<Opportunity>)
    requires Notes(seen, items, |items|) && FiduciaNoted(seen, items, |items|)
    ensures (forall company :: company in seen.fiducia ==> CompanyFits(seen, company))
            <==> forall i :: 0 <= i < |items| ==> RoleCountFits(items, items[i])
  {
    hide HasId, HasUrl, HasRequisition, Roles;
    assert items[..|items|] == items;
    if forall company :: company in seen.fiducia ==> CompanyFits(seen, company) {
      forall i | 0 <= i < |items| ensures RoleCountFits(items, items[i]) {
        assert CompanyNoted(seen, items, |items|, items[i].company);
        assert CompanyFits(seen, items[i].company);
        assert items[i].fiducia != [] ==> items[i].fiducia[0] in multiset(items[i].fiducia);
      }
    }
    if forall i :: 0 <= i < |items| ==> RoleCountFits(items, items[i]) {
      forall company | company in seen.fiducia ensures CompanyFits(seen, company) {
        assert CompanyNoted(seen, items, |items|, company);
        var i :| 0 <= i < |items| && items[i].company == company;
        assert RoleCountFits(items, items[i]);
        assert items[i].fiducia == [] ==> multiset(items[i].fiducia) == multiset{};
      }
    }
  }

  /** Validation accepts exactly the digests that are ranked by score, company and requisition, repeat no
      identity, and whose Fiducia companies have 2 or 3 roles and one Fiducia set each. */
  method ValidateOpportunities(items: seq<Opportunity>) returns (errors: seq<OpportunityError>)
    ensures errors == [] <==> OpportunitiesAccepted(items)
  {
    hide OpportunityFits, OpportunityEntries, Notes, FiduciaNoted, RoleCountFits, CompanyFits, Ranking.WellRanked,
      Sorting.DistinctKeys;
    var seen, entries;
    errors, seen, entries := NoteOpportunities(items);
    if errors == [] {
      OpportunityKeysDistinct(items);
      OneEntryPerOpportunity(items);
      CompaniesFitIffRolesFit(seen, items);
    }
    var rankErrors := Ranking.CheckRanks(entries, |items|);
    if rankErrors != [] {
      errors := errors + [BadOpportunityRanks];
    }
    var roleErrors, fiduciaCompanies := CheckRoles(seen);
    errors := errors + roleErrors;
  }

  lemma {:induction false} OneEntryPerOpportunity(items: seq<Opportunity>)
    ensures |OpportunityEntries(items)| == |items|
  {
  }

  ghost predicate RanksBefore(a: Opportunity, b: Opportunity) {
    || a.score > b.score
    || (a.score == b.score
        && (|| Sorting.PartLess(Sorting.Name(a.company), Sorting.Name(b.company))
            || (a.company == b.company
                && Sorting.PartLess(Sorting.Name(a.requisition), Sorting.Name(b.requisition)))))
  }

  /** One record fits exactly when its rank and score are in range and it goes with every earlier one. */
  lemma {:induction false} OpportunityFitsIff(items: seq<Opportunity>, i: nat)
    requires i < |items|
    ensures OpportunityFits(items, i) <==>
            1 <= items[i].rank <= 10_000 && 0 <= items[i].score <= 100
            && forall j :: 0 <= j < i ==> Compatible(items[j], items[i])
  {
  }

  /** Accepted ranks are the order of score, highest first, then of companies, then of requisitions. */
  lemma {:induction false} OpportunityRanksFollowScores(items: seq<Opportunity>, i: nat, j: nat)
    requires OpportunitiesAccepted(items) && i < |items| && j < |items|
    ensures items[i].rank < items[j].rank <==> RanksBefore(items[i], items[j])
  {
    hide OpportunityFits, RoleCountFits, Ranking.WellRanked, Sorting.Before, Sorting.PartLess;
    var entries := OpportunityEntries(items);
    assert entries[i] == OpportunityEntry(items[i]) && entries[j] == OpportunityEntry(items[j]);
    Ranking.RankFollowsKey(entries, i, j);
    var a, b := entries[i].key, entries[j].key;
    Sorting.BeforeSplits(a, b);
    Sorting.BeforeOfPairs(a[1..], b[1..]);
    Sorting.NumbersCompare(-items[i].score, -items[j].score);
  }
}
