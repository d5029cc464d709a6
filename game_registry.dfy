/**
 * The registry the application looks its components up in: tile sets,
 * rulesets and scoring systems by name, and which scoring system a tile set
 * asks for. The component types are left open.
 */
module GameRegistries {
  import opened Common

  /** The scoring system every tile set without one of its own falls back to. */
  const StandardName := "standard"

  class GameRegistry<TileSetT, RulesetT, ScoringT> {
    var tileSets: map<string, TileSetT>
    var rulesets: map<string, RulesetT>
    var scoringSystems: map<string, ScoringT>
    /** Tile-set name to the name of the scoring system registered for it. */
    var tileSetScoringMap: map<string, string>

    /** Every map starts empty. */
    constructor ()
      ensures tileSets == map[] && rulesets == map[] && scoringSystems == map[] && tileSetScoringMap == map[]
    {
      tileSets := map[];
      rulesets := map[];
      scoringSystems := map[];
      tileSetScoringMap := map[];
    }

    /** `tileSets.get(name)`: the tile set registered last under `name`, if any. */
    function GetTileSet(name: string): (r: Option<TileSetT>)
      reads this
      ensures r.Some? <==> name in tileSets
      ensures r.Some? ==> r.value == tileSets[name]
    {
      if name in tileSets then Some(tileSets[name]) else None
    }

    function GetRuleset(name: string): (r: Option<RulesetT>)
      reads this
      ensures r.Some? <==> name in rulesets
      ensures r.Some? ==> r.value == rulesets[name]
    {
      if name in rulesets then Some(rulesets[name]) else None
    }

    function GetScoringSystem(name: string): (r: Option<ScoringT>)
      reads this
      ensures r.Some? <==> name in scoringSystems
      ensures r.Some? ==> r.value == scoringSystems[name]
    {
      if name in scoringSystems then Some(scoringSystems[name]) else None
    }

    /**
     * The scoring system for a tile set: the one registered for it, when the
     * recorded name is truthy (possibly missing, if that name was never
     * registered as a scoring system), and otherwise the standard one.
     */
    function GetScoringSystemForTileSet(tileSetName: string): (r: Option<ScoringT>)
      reads this
      ensures tileSetName in tileSetScoringMap && tileSetScoringMap[tileSetName] != "" ==>
                r == GetScoringSystem(tileSetScoringMap[tileSetName])
      ensures tileSetName !in tileSetScoringMap || tileSetScoringMap[tileSetName] == "" ==>
                r == GetScoringSystem(StandardName)
    {
      var specific := if tileSetName in tileSetScoringMap then Some(tileSetScoringMap[tileSetName]) else None;
      if TruthyString(specific) then GetScoringSystem(specific.value) else GetScoringSystem(StandardName)
    }

    /** Registering under a name replaces whatever was there; nothing else changes. */
    method RegisterTileSet(name: string, tileSet: TileSetT)
      modifies this
      ensures tileSets == old(tileSets)[name := tileSet]
      ensures rulesets == old(rulesets) && scoringSystems == old(scoringSystems)
      ensures tileSetScoringMap == old(tileSetScoringMap)
      ensures GetTileSet(name) == Some(tileSet)
      ensures forall other :: other != name ==> GetTileSet(other) == old(GetTileSet(other))
    {
      tileSets := tileSets[name := tileSet];
    }

    method RegisterRuleset(name: string, ruleset: RulesetT)
      modifies this
      ensures rulesets == old(rulesets)[name := ruleset]
      ensures tileSets == old(tileSets) && scoringSystems == old(scoringSystems)
      ensures tileSetScoringMap == old(tileSetScoringMap)
      ensures GetRuleset(name) == Some(ruleset)
      ensures forall other :: other != name ==> GetRuleset(other) == old(GetRuleset(other))
    {
      rulesets := rulesets[name := ruleset];
    }

    /**
     * Registers a scoring system and, when `forTileSet` is a truthy name, makes
     * it that tile set's scoring system. A tile set that is not named keeps the
     * scoring it had, except that a tile set mapped to `name` now sees the new
     * system under that name.
     */
    method RegisterScoringSystem(name: string, scoringSystem: ScoringT, forTileSet: Option<string>)
      modifies this
      ensures scoringSystems == old(scoringSystems)[name := scoringSystem]
      ensures TruthyString(forTileSet) ==> tileSetScoringMap == old(tileSetScoringMap)[forTileSet.value := name]
      ensures !TruthyString(forTileSet) ==> tileSetScoringMap == old(tileSetScoringMap)
      ensures tileSets == old(tileSets) && rulesets == old(rulesets)
      ensures GetScoringSystem(name) == Some(scoringSystem)
      ensures TruthyString(forTileSet) && name != "" ==>
                GetScoringSystemForTileSet(forTileSet.value) == Some(scoringSystem)
      ensures TruthyString(forTileSet) && name == "" ==>
                GetScoringSystemForTileSet(forTileSet.value) == GetScoringSystem(StandardName)
      ensures forall t :: (!TruthyString(forTileSet) || t != forTileSet.value) ==>
                GetScoringSystemForTileSet(t) ==
                (if t in old(tileSetScoringMap) && old(tileSetScoringMap)[t] != "" then
                   (if old(tileSetScoringMap)[t] == name then Some(scoringSystem) else old(GetScoringSystemForTileSet(t)))
                 else if name == StandardName then Some(scoringSystem)
                 else old(GetScoringSystemForTileSet(t)))
    {
      scoringSystems := scoringSystems[name := scoringSystem];
      if TruthyString(forTileSet) {
        tileSetScoringMap := tileSetScoringMap[forTileSet.value := name];
      }
    }
  }
}
