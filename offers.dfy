/**
 * The job offers shown by the EmploiItem component and the list filter that
 * decides which of them are displayed.
 */
module Offers {
  import opened Wrappers
  import opened Text

  /**
   * One job offer as delivered by the offer list endpoint. Field names follow
   * the JSON keys (`nom_poste`, `nom_candidat`, ...); `description` is the only
   * field the filter treats as possibly absent.
   */
  datatype Offer = Offer(
    nomPoste: string,
    nomCandidat: string,
    categorie: string,
    salaire: string,
    emplacement: string,
    description: Option<string>,
    responsabilites: string,
    exigences: string,
    emailEmployeur: string,
    visibility: bool)

  /**
   * The search term, lower-cased, occurs in the lower-cased title, candidate
   * name, category or, when there is one, description.
   */
  predicate MatchesSearch(o: Offer, searchTerm: string) {
    var q := Lower(searchTerm);
    Contains(Lower(o.nomPoste), q)
    || Contains(Lower(o.nomCandidat), q)
    || Contains(Lower(o.categorie), q)
    || (o.description.Some? && Contains(Lower(o.description.value), q))
  }

  /** The location term is empty or, lower-cased, occurs in the lower-cased location. */
  predicate MatchesLocation(o: Offer, location: string) {
    location == "" || Contains(Lower(o.emplacement), Lower(location))
  }

  /** The filter's predicate: visible, matching the search and the location. */
  predicate Keep(o: Offer, searchTerm: string, location: string) {
    o.visibility && MatchesSearch(o, searchTerm) && MatchesLocation(o, location)
  }

  /**
   * `filteredEmplois`: the offers of the list that Keep accepts, in list order.
   * An offer is in the result exactly when it is in the input and accepted.
   */
  function Filter(offers: seq<Offer>, searchTerm: string, location: string): (r: seq<Offer>)
    ensures |r| <= |offers|
    ensures forall o :: o in r <==> o in offers && Keep(o, searchTerm, location)
  {
    if offers == [] then []
    else
      var rest := Filter(offers[1..], searchTerm, location);
      if Keep(offers[0], searchTerm, location) then [offers[0]] + rest else rest
  }

  /** `idx` picks out `r` from `s` at strictly increasing positions. */
  ghost predicate Embeds(idx: seq<nat>, r: seq<Offer>, s: seq<Offer>) {
    |idx| == |r|
    && (forall k :: 0 <= k < |idx| ==> idx[k] < |s| && s[idx[k]] == r[k])
    && (forall j, k :: 0 <= j < k < |idx| ==> idx[j] < idx[k])
  }

  /** Positions into the tail of `s`, each moved up by one, are positions into `s` (all past 0). */
  lemma EmbedsShift(idx: seq<nat>, r: seq<Offer>, s: seq<Offer>) returns (shifted: seq<nat>)
    requires s != [] && Embeds(idx, r, s[1..])
    ensures Embeds(shifted, r, s)
    ensures forall k :: 0 <= k < |shifted| ==> 0 < shifted[k]
  {
    shifted := seq(|idx|, k requires 0 <= k < |idx| => idx[k] + 1);
    forall k | 0 <= k < |shifted|
      ensures shifted[k] < |s| && s[shifted[k]] == r[k]
    {
      assert s[1..][idx[k]] == s[idx[k] + 1];
    }
  }

  /** Position 0 can be put in front of an embedding that never uses it. */
  lemma EmbedsPrepend(idx: seq<nat>, r: seq<Offer>, s: seq<Offer>)
    requires s != [] && Embeds(idx, r, s)
    requires forall k :: 0 <= k < |idx| ==> 0 < idx[k]
    ensures Embeds([0] + idx, [s[0]] + r, s)
  {
  }

  /**
   * The filter output is a subsequence of its input: each output offer comes
   * from its own input position, and those positions keep the input order.
   */
  lemma {:induction false} FilterIsSubsequence(offers: seq<Offer>, searchTerm: string, location: string)
    returns (idx: seq<nat>)
    ensures Embeds(idx, Filter(offers, searchTerm, location), offers)
  {
    if offers == [] {
      idx := [];
    } else {
      var rest := Filter(offers[1..], searchTerm, location);
      var tail := FilterIsSubsequence(offers[1..], searchTerm, location);
      var shifted := EmbedsShift(tail, rest, offers);
      if Keep(offers[0], searchTerm, location) {
        EmbedsPrepend(shifted, rest, offers);
        idx := [0] + shifted;
      } else {
        idx := shifted;
      }
    }
  }

  /**
   * Nothing is duplicated or lost: each accepted offer occurs in the output as
   * often as in the input, and a rejected one not at all.
   */
  lemma {:induction false} FilterMultiplicity(offers: seq<Offer>, searchTerm: string, location: string, o: Offer)
    ensures multiset(Filter(offers, searchTerm, location))[o] ==
            if Keep(o, searchTerm, location) then multiset(offers)[o] else 0
  {
    if offers != [] {
      FilterMultiplicity(offers[1..], searchTerm, location, o);
      assert offers == [offers[0]] + offers[1..];
    }
  }

  /** Reference definition: the visible offers of the list, in list order. */
  function VisibleOnly(offers: seq<Offer>): (r: seq<Offer>)
  {
    if offers == [] then []
    else if offers[0].visibility then [offers[0]] + VisibleOnly(offers[1..])
    else VisibleOnly(offers[1..])
  }

  /** With both terms empty, the filter keeps exactly the visible offers. */
  lemma {:induction false} FilterEmptyTerms(offers: seq<Offer>)
    ensures Filter(offers, "", "") == VisibleOnly(offers)
  {
    if offers != [] {
      ContainsEmpty(Lower(offers[0].nomPoste));
      FilterEmptyTerms(offers[1..]);
    }
  }

  /** The per-offer predicate only depends on the terms' lower-cased forms. */
  lemma KeepCaseInsensitive(o: Offer, s1: string, s2: string, l1: string, l2: string)
    requires Lower(s1) == Lower(s2) && Lower(l1) == Lower(l2)
    ensures Keep(o, s1, l1) == Keep(o, s2, l2)
  {
  }

  /**
   * Matching is case-insensitive: search and location terms that lower-case
   * alike give the same output.
   */
  lemma {:induction false} FilterCaseInsensitive(offers: seq<Offer>, s1: string, s2: string, l1: string, l2: string)
    requires Lower(s1) == Lower(s2) && Lower(l1) == Lower(l2)
    ensures Filter(offers, s1, l1) == Filter(offers, s2, l2)
  {
    if offers != [] {
      KeepCaseInsensitive(offers[0], s1, s2, l1, l2);
      FilterCaseInsensitive(offers[1..], s1, s2, l1, l2);
    }
  }

  /** An invisible offer is never shown, whatever the terms. */
  lemma InvisibleExcluded(offers: seq<Offer>, o: Offer, searchTerm: string, location: string)
    requires !o.visibility
    ensures o !in Filter(offers, searchTerm, location)
  {
  }

  /**
   * A non-empty location that does not occur in the offer's location excludes
   * the offer even when the search term matches.
   */
  lemma LocationMismatchExcluded(offers: seq<Offer>, o: Offer, searchTerm: string, location: string)
    requires MatchesSearch(o, searchTerm)
    requires location != "" && !Contains(Lower(o.emplacement), Lower(location))
    ensures o !in Filter(offers, searchTerm, location)
  {
  }

  /**
   * An offer without a description whose title, candidate name and category do
   * not contain the search term is excluded; the missing description is simply
   * a non-match.
   */
  lemma MissingDescriptionExcluded(offers: seq<Offer>, o: Offer, searchTerm: string, location: string)
    requires o.description == None
    requires !Contains(Lower(o.nomPoste), Lower(searchTerm))
    requires !Contains(Lower(o.nomCandidat), Lower(searchTerm))
    requires !Contains(Lower(o.categorie), Lower(searchTerm))
    ensures o !in Filter(offers, searchTerm, location)
  {
  }

  /**
   * The source's `emploi.description &&` treats an empty description as
   * absent; searching it would give the same answer, so modelling every
   * present description as searched is faithful.
   */
  lemma EmptyDescriptionLikeNone(o: Offer, searchTerm: string)
    ensures MatchesSearch(o.(description := Some("")), searchTerm) ==
            MatchesSearch(o.(description := None), searchTerm)
  {
    if Lower(searchTerm) == "" {
      ContainsEmpty(Lower(o.nomPoste));
    } else {
      ContainsTooLong(Lower(""), Lower(searchTerm));
    }
  }

  /** A visible offer in category "Sales", used by the two example lemmas below. */
  function SalesOffer(emplacement: string): Offer
  {
    Offer("Vendeur", "Dupont", "Sales", "40000", emplacement, None, "", "", "rh@example.com", true)
  }

  /** Searching "SALES" finds an offer whose category is "Sales". */
  lemma UpperCaseSearchFindsCategory()
    ensures Filter([SalesOffer("Paris")], "SALES", "") == [SalesOffer("Paris")]
  {
  }

  /** Searching "s" in "Paris" excludes an otherwise matching offer located in "Lyon". */
  lemma OtherLocationExcluded()
    ensures Filter([SalesOffer("Lyon")], "s", "Paris") == []
  {
  }
}
