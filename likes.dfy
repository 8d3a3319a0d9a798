/**
 * The "liked jobs" set: offers are liked by title, and clicking the heart of an
 * offer toggles its title in the set.
 */
module Likes {
  import opened Offers

  /**
   * The set that the like handler hands to `setLikedJobs`: the key is removed
   * when it was present and added when it was absent; no other key changes.
   */
  function Toggle(liked: set<string>, key: string): (r: set<string>)
    ensures key in r <==> key !in liked
    ensures forall k :: k != key ==> (k in r <==> k in liked)
  {
    if key in liked then liked - {key} else liked + {key}
  }

  /** Toggling the same key twice gives back the original set. */
  lemma ToggleTwice(liked: set<string>, key: string)
    ensures Toggle(Toggle(liked, key), key) == liked
  {
  }

  /** The heart icon is filled when the offer's title is in the liked set. */
  predicate IsLiked(liked: set<string>, o: Offer) {
    o.nomPoste in liked
  }

  /**
   * Liked status depends on the title alone: two offers with the same title
   * are liked together, and a click on either toggles both.
   */
  lemma SameTitleSharesLike(liked: set<string>, o1: Offer, o2: Offer)
    requires o1.nomPoste == o2.nomPoste
    ensures IsLiked(liked, o1) == IsLiked(liked, o2)
    ensures IsLiked(Toggle(liked, o1.nomPoste), o2) == !IsLiked(liked, o2)
  {
  }

  /**
   * The `likedJobs` state cell of the parent component, which EmploiItem reads
   * through its props and replaces through `setLikedJobs`.
   */
  class LikedJobs {
    var likedJobs: set<string>

    /** A session starts with no liked offer. */
    constructor ()
      ensures likedJobs == {}
    {
      likedJobs := {};
    }

    /**
     * The heart's click handler: copies the current set, deletes the title from
     * the copy if present and adds it otherwise, then stores the copy.
     */
    method OnLikeClick(emploi: Offer) returns (newLikes: set<string>)
      modifies this
      ensures newLikes == Toggle(old(likedJobs), emploi.nomPoste)
      ensures likedJobs == newLikes
    {
      newLikes := likedJobs;
      if emploi.nomPoste in newLikes {
        newLikes := newLikes - {emploi.nomPoste};
      } else {
        newLikes := newLikes + {emploi.nomPoste};
      }
      likedJobs := newLikes;
    }
  }
}
