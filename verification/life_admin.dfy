/**
 * The life admin page (src/app/admin/life/page.tsx): loading the universes,
 * characters and worlds a life can be deployed into, the labels shown for a
 * character and a world, and the deploy action.
 *
 * Backend calls are inputs: the outcomes of the universe and character
 * calls, and `worldsOf`, the outcome of the world call for each universe
 * uid. The deploy form's fields are parameters.
 */
module LifeAdmin {
  import opened Types
  import opened Strings
  import opened Lookup

  function CharacterUid(c: Character): string { c.uid }
  function WorldUid(w: World): string { w.uid }
  function UniverseUid(u: Universe): string { u.uid }

  /**
   * `getCharacterName`: the name of the first character with that uid; the
   * uid itself when none has it or that character's name is empty.
   */
  function CharacterName(characters: seq<Character>, uid: string): (r: string)
    ensures (forall i :: 0 <= i < |characters| ==> characters[i].uid != uid) ==> r == uid
    ensures forall i :: FirstMatch(characters, CharacterUid, uid, i) ==>
      r == if characters[i].name != "" then characters[i].name else uid
  {
    match Find(characters, CharacterUid, uid)
    case None => uid
    case Some(i) =>
      assert forall j :: FirstMatch(characters, CharacterUid, uid, j) ==> j == i by {
        forall j | FirstMatch(characters, CharacterUid, uid, j) ensures j == i {
          FirstMatchUnique(characters, CharacterUid, uid, i, j);
        }
      }
      if characters[i].name != "" then characters[i].name else uid
  }

  const UnknownUniverse: string := "Unknown"

  /**
   * The universe part of a world label: the name of the first universe with
   * that uid, or `Unknown` when none has it or its name is empty.
   */
  function UniverseLabel(universes: seq<Universe>, uid: string): (r: string)
    ensures (forall i :: 0 <= i < |universes| ==> universes[i].uid != uid) ==> r == UnknownUniverse
    ensures forall i :: FirstMatch(universes, UniverseUid, uid, i) ==>
      r == if universes[i].name != "" then universes[i].name else UnknownUniverse
  {
    match Find(universes, UniverseUid, uid)
    case None => UnknownUniverse
    case Some(i) =>
      assert forall j :: FirstMatch(universes, UniverseUid, uid, j) ==> j == i by {
        forall j | FirstMatch(universes, UniverseUid, uid, j) ensures j == i {
          FirstMatchUnique(universes, UniverseUid, uid, i, j);
        }
      }
      if universes[i].name != "" then universes[i].name else UnknownUniverse
  }

  /**
   * `getWorldName`: the uid unchanged when no world has it; otherwise the
   * label of the first such world's universe, ` / `, at most the first six
   * characters of the uid, and `...`.
   */
  function WorldName(worlds: seq<World>, universes: seq<Universe>, uid: string): (r: string)
    ensures (forall i :: 0 <= i < |worlds| ==> worlds[i].uid != uid) ==> r == uid
    ensures forall i :: FirstMatch(worlds, WorldUid, uid, i) ==>
      r == UniverseLabel(universes, worlds[i].universeUid) + " / " + Take(uid, 6) + "..."
  {
    match Find(worlds, WorldUid, uid)
    case None => uid
    case Some(i) =>
      assert forall j :: FirstMatch(worlds, WorldUid, uid, j) ==> j == i by {
        forall j | FirstMatch(worlds, WorldUid, uid, j) ensures j == i {
          FirstMatchUnique(worlds, WorldUid, uid, i, j);
        }
      }
      UniverseLabel(universes, worlds[i].universeUid) + " / " + Take(worlds[i].uid, 6) + "..."
  }

  /**
   * The worlds of all universes, each universe's worlds in the order
   * returned and universes in list order. The aggregation succeeds exactly
   * when every universe's world call does.
   */
  function AllWorlds(universes: seq<Universe>, worldsOf: string -> Outcome<seq<World>>): (r: Outcome<seq<World>>)
    ensures r.Resolved? <==> forall i :: 0 <= i < |universes| ==> worldsOf(universes[i].uid).Resolved?
    decreases |universes|
  {
    if universes == [] then Resolved([])
    else
      var init := Init(universes);
      assert forall i :: 0 <= i < |init| ==> init[i] == universes[i];
      match AllWorlds(init, worldsOf)
      case Rejected => Rejected
      case Resolved(before) =>
        match worldsOf(Last(universes).uid)
        case Rejected => Rejected
        case Resolved(ws) => Resolved(before + ws)
  }

  /**
   * Aggregating two runs of universes one after the other is aggregating
   * each and concatenating: the worlds keep universe order.
   */
  lemma {:induction false} AllWorldsAppend(
    a: seq<Universe>, b: seq<Universe>, worldsOf: string -> Outcome<seq<World>>)
    requires AllWorlds(a, worldsOf).Resolved? && AllWorlds(b, worldsOf).Resolved?
    ensures AllWorlds(a + b, worldsOf) == Resolved(AllWorlds(a, worldsOf).value + AllWorlds(b, worldsOf).value)
    decreases |b|
  {
    if b == [] {
      assert a + b == a;
      assert AllWorlds(a, worldsOf).value + [] == AllWorlds(a, worldsOf).value;
    } else {
      assert Init(a + b) == a + Init(b);
      assert Last(a + b) == Last(b);
      AllWorldsAppend(a, Init(b), worldsOf);
      var wa := AllWorlds(a, worldsOf).value;
      var wi := AllWorlds(Init(b), worldsOf).value;
      var wl := worldsOf(Last(b).uid).value;
      assert wa + wi + wl == wa + (wi + wl);
    }
  }

  /** A successful aggregation holds exactly the worlds some universe's call returned. */
  lemma {:induction false} AllWorldsMembers(
    universes: seq<Universe>, worldsOf: string -> Outcome<seq<World>>, w: World)
    requires AllWorlds(universes, worldsOf).Resolved?
    ensures w in AllWorlds(universes, worldsOf).value <==>
      exists i :: 0 <= i < |universes| && worldsOf(universes[i].uid).Resolved?
        && w in worldsOf(universes[i].uid).value
    decreases |universes|
  {
    if universes != [] {
      var init := Init(universes);
      AllWorldsMembers(init, worldsOf, w);
      assert forall i :: 0 <= i < |init| ==> init[i] == universes[i];
      assert Last(universes) == universes[|universes| - 1];
    }
  }

  /** The body of `adminAPI.deployLife`. */
  datatype DeployRequest = DeployRequest(characterUid: string, worldUid: string)

  class LifePage {
    var universes: seq<Universe>
    var characters: seq<Character>
    var worlds: seq<World>
    var selectedWorldUid: string
    var isDeploying: bool
    var showDeployModal: bool

    constructor ()
      ensures universes == [] && characters == [] && worlds == []
      ensures selectedWorldUid == "" && !isDeploying && !showDeployModal
    {
      universes := [];
      characters := [];
      worlds := [];
      selectedWorldUid := "";
      isDeploying := false;
      showDeployModal := false;
    }

    /**
     * `loadMetadata`. If the universe or the character call fails nothing
     * changes. Otherwise both lists are stored; then the worlds of every
     * universe are fetched in turn and, if all calls succeed, the world list
     * becomes their concatenation and its first world, if any, is selected.
     * A failed world call leaves the world list and the selection as they
     * were.
     */
    method LoadMetadata(
      universesOutcome: Outcome<seq<Universe>>,
      charactersOutcome: Outcome<seq<Character>>,
      worldsOf: string -> Outcome<seq<World>>)
      modifies this
      ensures universesOutcome.Rejected? || charactersOutcome.Rejected? ==>
        && universes == old(universes) && characters == old(characters)
        && worlds == old(worlds) && selectedWorldUid == old(selectedWorldUid)
      ensures universesOutcome.Resolved? && charactersOutcome.Resolved? ==>
        && universes == universesOutcome.value
        && characters == charactersOutcome.value
        && (AllWorlds(universes, worldsOf).Resolved? ==>
              && worlds == AllWorlds(universes, worldsOf).value
              && selectedWorldUid == if worlds != [] then worlds[0].uid else old(selectedWorldUid))
        && (AllWorlds(universes, worldsOf).Rejected? ==>
              worlds == old(worlds) && selectedWorldUid == old(selectedWorldUid))
      ensures isDeploying == old(isDeploying) && showDeployModal == old(showDeployModal)
    {
      if universesOutcome.Rejected? || charactersOutcome.Rejected? {
        return;
      }
      var us := universesOutcome.value;
      universes := us;
      characters := charactersOutcome.value;
      var all: seq<World> := [];
      for i := 0 to |us|
        invariant AllWorlds(us[..i], worldsOf) == Resolved(all)
      {
        assert Init(us[..i + 1]) == us[..i] && Last(us[..i + 1]) == us[i];
        match worldsOf(us[i].uid)
        case Rejected =>
          return;
        case Resolved(ws) =>
          all := all + ws;
      }
      assert us[..|us|] == us;
      worlds := all;
      if |all| > 0 {
        selectedWorldUid := all[0].uid;
      }
    }

    /**
     * `handleDeploy` up to its `await`: with both a character and a world
     * chosen, deploying starts and the request is returned; otherwise
     * nothing happens.
     */
    method BeginDeploy(deployCharUid: string, deployWorldUid: string) returns (request: Option<DeployRequest>)
      modifies this
      ensures request.Some? <==> deployCharUid != "" && deployWorldUid != ""
      ensures request.Some? ==> request.value == DeployRequest(deployCharUid, deployWorldUid) && isDeploying
      ensures request.None? ==> isDeploying == old(isDeploying)
      ensures showDeployModal == old(showDeployModal)
      ensures universes == old(universes) && characters == old(characters)
      ensures worlds == old(worlds) && selectedWorldUid == old(selectedWorldUid)
    {
      if deployCharUid == "" || deployWorldUid == "" {
        return None;
      }
      isDeploying := true;
      request := Some(DeployRequest(deployCharUid, deployWorldUid));
    }

    /**
     * `handleDeploy` after its `await`: a success closes the deploy dialog
     * and asks for the lives to be reloaded; deploying ends on both paths.
     */
    method FinishDeploy(outcome: Outcome<()>) returns (reloadLives: bool)
      modifies this
      ensures reloadLives <==> outcome.Resolved?
      ensures !isDeploying
      ensures showDeployModal == if outcome.Resolved? then false else old(showDeployModal)
      ensures universes == old(universes) && characters == old(characters)
      ensures worlds == old(worlds) && selectedWorldUid == old(selectedWorldUid)
    {
      reloadLives := outcome.Resolved?;
      if reloadLives {
        showDeployModal := false;
      }
      isDeploying := false;
    }
  }
}
