/**
 * The popup state of the EmploiItem component: two booleans shared by every
 * rendered offer and one "selected offer" reference.
 */
module Disclosure {
  import opened Wrappers
  import opened Offers

  class PopupState {
    var showEmail: bool
    var selectedEmploi: Option<Offer>
    var showDetails: bool

    /** Both popups start closed and no offer is selected. */
    constructor ()
      ensures !showEmail && !showDetails && selectedEmploi == None
    {
      showEmail := false;
      selectedEmploi := None;
      showDetails := false;
    }

    /** The email popup of `emploi` is rendered. */
    predicate EmailPopupShown(emploi: Offer)
      reads this
    {
      showEmail && selectedEmploi == Some(emploi)
    }

    /** The details popup of `emploi` is rendered. */
    predicate DetailsPopupShown(emploi: Offer)
      reads this
    {
      showDetails && selectedEmploi == Some(emploi)
    }

    /** A click on an offer's title flips the shared details flag. */
    method OnTitleClick()
      modifies this
      ensures showDetails == !old(showDetails)
      ensures showEmail == old(showEmail) && selectedEmploi == old(selectedEmploi)
    {
      showDetails := !showDetails;
    }

    /** A click on an offer's "Postuler" button flips the shared email flag. */
    method OnPostulerClick()
      modifies this
      ensures showEmail == !old(showEmail)
      ensures showDetails == old(showDetails) && selectedEmploi == old(selectedEmploi)
    {
      showEmail := !showEmail;
    }

    /** The email popup's close control clears the email flag. */
    method OnEmailClose()
      modifies this
      ensures !showEmail
      ensures showDetails == old(showDetails) && selectedEmploi == old(selectedEmploi)
    {
      showEmail := false;
    }

    /** The details popup's close control clears the details flag. */
    method OnDetailsClose()
      modifies this
      ensures !showDetails
      ensures showEmail == old(showEmail) && selectedEmploi == old(selectedEmploi)
    {
      showDetails := false;
    }
  }

  /**
   * While no offer is selected, neither popup renders for any offer, whatever
   * the two flags hold. No handler above changes `selectedEmploi` and the
   * constructor sets it to None, so this holds in every reachable state.
   */
  lemma NoPopupWithoutSelection(p: PopupState, emploi: Offer)
    requires p.selectedEmploi == None
    ensures !p.EmailPopupShown(emploi) && !p.DetailsPopupShown(emploi)
  {
  }

  /** Clicking the title twice, or "Postuler" twice, restores the popup state. */
  method DoubleClickRestores(p: PopupState)
    modifies p
    ensures p.showEmail == old(p.showEmail) && p.showDetails == old(p.showDetails)
    ensures p.selectedEmploi == old(p.selectedEmploi)
  {
    p.OnTitleClick();
    p.OnTitleClick();
    p.OnPostulerClick();
    p.OnPostulerClick();
  }

  /** Closing the email popup a second time leaves the state of a single close. */
  method EmailCloseTwice(p: PopupState)
    modifies p
    ensures !p.showEmail
    ensures p.showDetails == old(p.showDetails) && p.selectedEmploi == old(p.selectedEmploi)
  {
    p.OnEmailClose();
    p.OnEmailClose();
  }

  /** Closing the details popup a second time leaves the state of a single close. */
  method DetailsCloseTwice(p: PopupState)
    modifies p
    ensures !p.showDetails
    ensures p.showEmail == old(p.showEmail) && p.selectedEmploi == old(p.selectedEmploi)
  {
    p.OnDetailsClose();
    p.OnDetailsClose();
  }

  /**
   * From a freshly mounted component, whatever clicks follow, no popup ever
   * renders for any offer. The two close controls sit inside the popups, so a
   * user cannot reach them; admitting them in `clicks` over-approximates the
   * possible sessions, which only makes the statement stronger.
   */
  method PopupsNeverRender(clicks: seq<Click>) returns (p: PopupState)
    ensures fresh(p)
    ensures forall e: Offer :: !p.EmailPopupShown(e) && !p.DetailsPopupShown(e)
  {
    p := new PopupState();
    for i := 0 to |clicks|
      invariant p.selectedEmploi == None
    {
      match clicks[i]
      case Title => p.OnTitleClick();
      case Postuler => p.OnPostulerClick();
      case EmailClose => p.OnEmailClose();
      case DetailsClose => p.OnDetailsClose();
    }
  }

  /** The four click targets that change popup state. */
  datatype Click = Title | Postuler | EmailClose | DetailsClose
}
