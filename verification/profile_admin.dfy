/**
 * The character-profile admin page (src/app/admin/profile/page.tsx): the
 * orphan test that flags a life-owned profile whose life is gone, and the
 * loading flag around fetching profiles and lives together.
 */
module ProfileAdmin {
  import opened Types
  import opened Lookup

  const LifeOwner: string := "life"

  function LifeUid(l: Life): string { l.uid }

  /**
   * `isOrphan`: a profile owned by a life none of the loaded lives has the
   * uid of. Profiles owned by anything else are never orphans.
   */
  function IsOrphan(profile: Profile, lives: seq<Life>): (r: bool)
    ensures profile.ownerType != LifeOwner ==> !r
    ensures profile.ownerType == LifeOwner ==>
      (r <==> forall i :: 0 <= i < |lives| ==> lives[i].uid != profile.ownerUid)
  {
    if profile.ownerType != LifeOwner then false
    else Find(lives, LifeUid, profile.ownerUid).None?
  }

  /** The verdict does not depend on the order the lives were loaded in. */
  lemma IsOrphanOrderFree(profile: Profile, lives: seq<Life>, reordered: seq<Life>)
    requires multiset(lives) == multiset(reordered)
    ensures IsOrphan(profile, lives) == IsOrphan(profile, reordered)
  {
    FoundOrderFree(lives, reordered, LifeUid, profile.ownerUid);
  }

  /** Loading more lives can only clear an orphan flag, never raise one. */
  lemma MoreLivesFewerOrphans(profile: Profile, lives: seq<Life>, more: seq<Life>)
    ensures IsOrphan(profile, lives + more) ==> IsOrphan(profile, lives)
  {
    if profile.ownerType == LifeOwner && IsOrphan(profile, lives + more) {
      forall i | 0 <= i < |lives| ensures lives[i].uid != profile.ownerUid {
        assert (lives + more)[i] == lives[i];
      }
    }
  }

  class ProfilePage {
    var profiles: seq<Profile>
    var lives: seq<Life>
    var loading: bool

    constructor ()
      ensures profiles == [] && lives == [] && loading
    {
      profiles := [];
      lives := [];
      loading := true;
    }

    /** `loadData` up to its `await`: loading starts. */
    method BeginLoad()
      modifies this
      ensures loading
      ensures profiles == old(profiles) && lives == old(lives)
    {
      loading := true;
    }

    /**
     * `loadData` after its `await`: both lists are replaced when both calls
     * succeed, neither when either fails, and loading ends on both paths.
     */
    method FinishLoad(profilesOutcome: Outcome<seq<Profile>>, livesOutcome: Outcome<seq<Life>>)
      modifies this
      ensures !loading
      ensures profilesOutcome.Resolved? && livesOutcome.Resolved? ==>
        profiles == profilesOutcome.value && lives == livesOutcome.value
      ensures profilesOutcome.Rejected? || livesOutcome.Rejected? ==>
        profiles == old(profiles) && lives == old(lives)
    {
      if profilesOutcome.Resolved? && livesOutcome.Resolved? {
        profiles := profilesOutcome.value;
        lives := livesOutcome.value;
      }
      loading := false;
    }
  }
}
