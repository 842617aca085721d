/** Extraction of the IMDb identifier and title URL from an item's guids. */
module Imdb {
  import opened Wrappers
  import opened Strings
  import opened Plex

  const ImdbMarker := "imdb://"
  const ImdbTitleUrl := "https://www.imdb.com/title/"

  /** The two IMDb columns of a record; both are None when no guid matched. */
  datatype ImdbInfo = ImdbInfo(imdbId: Option<string>, imdbUrl: Option<string>)

  /** The guid id mentions the IMDb scheme marker somewhere. */
  predicate IsImdbGuid(g: Guid) {
    Contains(g.id, ImdbMarker)
  }

  /** A guid is an IMDb guid exactly when the marker occurs in its id. */
  lemma ImdbGuidMentionsMarker(g: Guid)
    ensures IsImdbGuid(g) <==> exists i: nat :: OccursAt(g.id, ImdbMarker, i)
  {
    ContainsOccurs(g.id, ImdbMarker);
  }

  /** Index of the first guid, in list order, that mentions the marker. */
  function FirstImdbGuid(guids: seq<Guid>): (r: Option<nat>)
    ensures r.Some? ==> r.value < |guids| && IsImdbGuid(guids[r.value])
    ensures r.Some? ==> forall j :: 0 <= j < r.value ==> !IsImdbGuid(guids[j])
    ensures r.None? ==> forall j :: 0 <= j < |guids| ==> !IsImdbGuid(guids[j])
  {
    if guids == [] then None
    else if IsImdbGuid(guids[0]) then Some(0)
    else match FirstImdbGuid(guids[1..])
      case None => None
      case Some(k) => Some(k + 1)
  }

  /** Python's `id.split('imdb://')[1]`: the text after the first marker, up
      to the next marker or the end. */
  function ImdbIdOf(id: string): (r: string)
    requires Contains(id, ImdbMarker)
    ensures !Contains(r, ImdbMarker)
  {
    SplitPiecesFree(id, ImdbMarker);
    Split(id, ImdbMarker)[1]
  }

  /** The canonical title page of an IMDb identifier. */
  function ImdbUrlOf(imdbId: string): (r: string)
    ensures |r| == |ImdbTitleUrl| + |imdbId| + 1
    ensures r[..|ImdbTitleUrl|] == ImdbTitleUrl && r[|r| - 1] == '/'
    ensures r[|ImdbTitleUrl|..|r| - 1] == imdbId
  {
    ImdbTitleUrl + imdbId + "/"
  }

  /** The IMDb columns of an item with the given guids. */
  function ImdbInfoOf(guids: seq<Guid>): (r: ImdbInfo)
    ensures r.imdbId.None? <==> r.imdbUrl.None?
    ensures r.imdbId.None? <==> forall j :: 0 <= j < |guids| ==> !IsImdbGuid(guids[j])
    ensures r.imdbId.Some? ==> r.imdbUrl == Some(ImdbTitleUrl + r.imdbId.value + "/")
  {
    match FirstImdbGuid(guids)
    case None => ImdbInfo(None, None)
    case Some(k) =>
      var imdbId := ImdbIdOf(guids[k].id);
      ImdbInfo(Some(imdbId), Some(ImdbUrlOf(imdbId)))
  }

  /** The identifier is exactly the text between the first marker and the
      next one (or the end): the guid id is `before + marker + id + after`
      where `before` (the text before the first marker) and the identifier
      hold no marker and `after` is empty or starts with another marker. */
  lemma ImdbIdBetweenMarkers(id: string) returns (before: string, after: string)
    requires Contains(id, ImdbMarker)
    ensures id == before + ImdbMarker + ImdbIdOf(id) + after
    ensures before == Split(id, ImdbMarker)[0]
    ensures !Contains(before, ImdbMarker) && !Contains(ImdbIdOf(id), ImdbMarker)
    ensures after == [] || (|ImdbMarker| <= |after| && after[..|ImdbMarker|] == ImdbMarker)
  {
    before, after := SecondPiece(id, ImdbMarker);
  }

  /** The first guid that mentions the marker is found wherever it sits. */
  lemma {:induction false} FirstImdbGuidAt(before: seq<Guid>, g: Guid, after: seq<Guid>)
    requires forall j :: 0 <= j < |before| ==> !IsImdbGuid(before[j])
    requires IsImdbGuid(g)
    ensures FirstImdbGuid(before + [g] + after) == Some(|before|)
    decreases |before|
  {
    var all := before + [g] + after;
    if before == [] {
      assert all[0] == g;
    } else {
      FirstImdbGuidAt(before[1..], g, after);
      assert all[0] == before[0];
      assert all[1..] == before[1..] + [g] + after;
    }
  }

  /** Only the first matching guid counts: guids before it are skipped and
      everything after it, matching or not, is ignored. */
  lemma FirstMatchWins(before: seq<Guid>, g: Guid, after: seq<Guid>)
    requires forall j :: 0 <= j < |before| ==> !IsImdbGuid(before[j])
    requires IsImdbGuid(g)
    ensures ImdbInfoOf(before + [g] + after) == ImdbInfoOf([g])
    ensures ImdbInfoOf([g]).imdbId == Some(ImdbIdOf(g.id))
  {
    FirstImdbGuidAt(before, g, after);
    FirstImdbGuidAt([], g, []);
    assert (before + [g] + after)[|before|] == g;
    assert [] + [g] + [] == [g];
  }

  /** `_get_imdb_info`: scan the guids in order and stop at the first one
      whose id mentions the marker. */
  method GetImdbInfo(guids: seq<Guid>) returns (imdbId: Option<string>, imdbUrl: Option<string>)
    ensures ImdbInfo(imdbId, imdbUrl) == ImdbInfoOf(guids)
  {
    imdbId, imdbUrl := None, None;
    var i := 0;
    while i < |guids|
      invariant 0 <= i <= |guids|
      invariant forall j :: 0 <= j < i ==> !IsImdbGuid(guids[j])
      invariant imdbId == None && imdbUrl == None
    {
      if Contains(guids[i].id, ImdbMarker) {
        imdbId := Some(ImdbIdOf(guids[i].id));
        imdbUrl := Some(ImdbTitleUrl + imdbId.value + "/");
        FirstMatchWins(guids[..i], guids[i], guids[i + 1..]);
        assert guids == guids[..i] + [guids[i]] + guids[i + 1..];
        return;
      }
      i := i + 1;
    }
  }
}
