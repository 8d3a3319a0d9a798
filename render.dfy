/** Which of its three outputs the EmploiItem component renders. */
module Render {
  import opened Wrappers
  import opened Text
  import opened Offers

  /** The loading placeholder, the "no offer found" line, or the list of offers. */
  datatype View = Loading | NoResults | Listing(items: seq<Offer>)

  /** `emplois || []`: a missing offer list counts as empty. */
  function SourceList(emplois: Option<seq<Offer>>): seq<Offer>
  {
    match emplois
    case Some(list) => list
    case None => []
  }

  /**
   * Loading while the source list is empty; otherwise "no results" when the
   * filter keeps nothing, else the filtered offers in order.
   */
  function ViewOf(emplois: Option<seq<Offer>>, searchTerm: string, location: string): (v: View)
    ensures v == Loading <==> SourceList(emplois) == []
    ensures v == NoResults <==>
            SourceList(emplois) != [] && Filter(SourceList(emplois), searchTerm, location) == []
    ensures v.Listing? ==> v.items != [] && v.items == Filter(SourceList(emplois), searchTerm, location)
  {
    var emploisList := SourceList(emplois);
    var filtered := Filter(emploisList, searchTerm, location);
    if |emploisList| == 0 then Loading
    else if |filtered| > 0 then Listing(filtered)
    else NoResults
  }

  /** A missing offer list renders the loading placeholder, whatever the terms. */
  lemma MissingListLoading(searchTerm: string, location: string)
    ensures ViewOf(None, searchTerm, location) == Loading
  {
  }

  /**
   * With empty terms, a loaded list that holds a visible offer is rendered as
   * the list of its visible offers.
   */
  lemma {:induction false} EmptyTermsListVisible(emplois: seq<Offer>, k: nat)
    requires k < |emplois| && emplois[k].visibility
    ensures ViewOf(Some(emplois), "", "") == Listing(VisibleOnly(emplois))
  {
    FilterEmptyTerms(emplois);
    assert emplois[k] in Filter(emplois, "", "") by {
      ContainsEmpty(Lower(emplois[k].nomPoste));
    }
  }

  /** A loaded list in which every offer is invisible renders "no results", never the list. */
  lemma AllInvisibleNoResults(emplois: seq<Offer>, searchTerm: string, location: string)
    requires emplois != []
    requires forall k :: 0 <= k < |emplois| ==> !emplois[k].visibility
    ensures ViewOf(Some(emplois), searchTerm, location) == NoResults
  {
    var f := Filter(emplois, searchTerm, location);
    if f != [] {
      assert f[0] in emplois;
    }
  }
}
