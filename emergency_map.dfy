/** Bookmarking nearby emergency places by their `place_id` on the emergency map screen. */
module EmergencyMap {
  import Seqs

  /** A Geoapify feature, identified by `properties.place_id`; its other data is opaque here. */
  datatype Place = Place(placeId: string, name: string)

  predicate HasPlace(bookmarks: seq<Place>, placeId: string) {
    exists i :: 0 <= i < |bookmarks| && bookmarks[i].placeId == placeId
  }

  /** The list `toggleBookmark` computes: without that id if it was bookmarked, else with the place appended. */
  function Toggled(bookmarks: seq<Place>, place: Place): (r: seq<Place>)
    ensures HasPlace(bookmarks, place.placeId) ==>
              && (forall b :: b in r <==> b in bookmarks && b.placeId != place.placeId)
              && (forall b :: multiset(r)[b] == if b.placeId != place.placeId then multiset(bookmarks)[b] else 0)
              && Seqs.IsSubsequence(r, bookmarks)
    ensures !HasPlace(bookmarks, place.placeId) ==> r == bookmarks + [place]
  {
    if HasPlace(bookmarks, place.placeId) then Seqs.Filter(bookmarks, (b: Place) => b.placeId != place.placeId)
    else bookmarks + [place]
  }

  /** A toggle flips whether the place's id is bookmarked. */
  lemma ToggleFlipsMembership(bookmarks: seq<Place>, place: Place)
    ensures HasPlace(Toggled(bookmarks, place), place.placeId) <==> !HasPlace(bookmarks, place.placeId)
  {
    var r := Toggled(bookmarks, place);
    if !HasPlace(bookmarks, place.placeId) {
      assert r[|r| - 1] == place;
    }
  }

  /** Toggling a place that was not bookmarked, then toggling it again, restores the list. */
  lemma ToggleTwiceRestores(bookmarks: seq<Place>, place: Place)
    requires !HasPlace(bookmarks, place.placeId)
    ensures Toggled(Toggled(bookmarks, place), place) == bookmarks
  {
    var keep := (b: Place) => b.placeId != place.placeId;
    var once := Toggled(bookmarks, place);
    assert once == bookmarks + [place];
    assert once[|once| - 1] == place;
    Seqs.FilterConcat(bookmarks, [place], keep);
    forall b | b in bookmarks ensures keep(b) {
      var i :| 0 <= i < |bookmarks| && bookmarks[i] == b;
    }
    Seqs.FilterKeepsAll(bookmarks, keep);
    assert Seqs.Filter([place], keep) == [];
  }

  class BookmarkStore {
    var bookmarks: seq<Place>
    /** The "bookmarks" entry of the device storage. */
    var stored: seq<Place>

    constructor ()
      ensures bookmarks == [] && stored == []
    {
      bookmarks, stored := [], [];
    }

    /** `toggleBookmark`: the new list is shown and written to storage unless the write fails. */
    method ToggleBookmark(place: Place, storageFails: bool)
      modifies this
      ensures bookmarks == Toggled(old(bookmarks), place)
      ensures stored == if storageFails then old(stored) else bookmarks
    {
      var updated := Toggled(bookmarks, place);
      bookmarks := updated;
      if !storageFails {
        stored := updated;
      }
    }
  }
}
