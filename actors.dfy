/**
 * The authoritative gameplay actors: the shrinking safe zone, its quadrants, the game
 * mode that tracks which quadrant each player is in, the player character, and the game
 * state's player counter. The C++ classes call each other in a cycle (quadrant to game
 * mode to character to game mode), so they share one module.
 *
 * Engine services become plain state: each timer is a field holding what is pending and
 * a Fire method runs the callback; overlap tests, spawn failures and the handles the
 * ability system returns arrive as parameters or fields set by the world.
 */
module SafeZoneActors {
  import opened Wrappers
  import opened Geometry
  import opened Occupancy
  import opened Abilities
  import opened DamageExecution

  /** The values of a list of optional entries that are present, in order. */
  function Present<T>(s: seq<Option<T>>): (r: seq<T>)
    ensures |r| <= |s|
    ensures forall k :: 0 <= k < |r| ==> Some(r[k]) in s
    ensures forall k :: 0 <= k < |s| && s[k].Some? ==> s[k].value in r
  {
    if |s| == 0 then []
    else
      var init := Present(s[..|s| - 1]);
      assert forall k :: 0 <= k < |s| - 1 ==> s[..|s| - 1][k] == s[k];
      if s[|s| - 1].Some? then init + [s[|s| - 1].value] else init
  }

  /**
   * Present keeps the order of the list: the values of a list made of two parts are the
   * values of the first part followed by those of the second.
   */
  lemma {:induction false} PresentAppend<T>(a: seq<Option<T>>, b: seq<Option<T>>)
    ensures Present(a + b) == Present(a) + Present(b)
    decreases |b|
  {
    if |b| > 0 {
      var init := b[..|b| - 1];
      assert (a + b)[..|a + b| - 1] == a + init;
      PresentAppend(a, init);
    } else {
      assert a + b == a;
    }
  }

  /** One entry contributes its value if it has one, and nothing otherwise. */
  lemma PresentSingle<T>(x: Option<T>)
    ensures Present([x]) == if x.Some? then [x.value] else []
  {
    assert [x][..0] == [];
  }

  /** A handle that may be invalid, as the list of what it holds. */
  function HandleList(h: Option<nat>): seq<nat>
  {
    if h.Some? then [h.value] else []
  }

  // ===========================================================================
  // Game state
  // ===========================================================================

  /** ASafeZoneGameState: the replicated count of players still in the match. */
  class SafeZoneGameState {
    var playerCount: int

    constructor ()
      ensures playerCount == 0
    {
      playerCount := 0;
    }
  }

  // ===========================================================================
  // Player character
  // ===========================================================================

  /**
   * AGamePlayerCharacter: health thresholds, the startup abilities and effects it grants
   * once, the out-of-zone damage timer and the death sequence.
   */
  class GamePlayerCharacter {
    /** GetPlayerUniqueNetIdAsString: the player state's unique id, empty without one. */
    const playerId: string
    /** HasAuthority / GetLocalRole() == ROLE_Authority. */
    const hasAuthority: bool
    /** The ability system component, created in the constructor only on the server. */
    const hasAbilitySystem: bool
    /** IsValid(PlayerAttribute). */
    const hasAttributeSet: bool
    /** CharacterAbilities: the ability classes granted at startup. */
    const characterAbilities: seq<nat>
    /** StartupEffects: None for an entry whose outgoing spec comes back invalid. */
    const startupEffects: seq<Option<nat>>
    /** Whether DamageEffectClass yields a valid outgoing spec. */
    const hasDamageEffectClass: bool

    const KnockdownHealthThreshold: real := 20.0
    const DamageInterval: real := 1.0
    const OutOfZoneDamage: real := 5.0

    /** The Health attribute, as the attribute set holds it. */
    var health: real
    var isKnockedDown: bool
    var isCharacterDead: bool
    var abilitiesGiven: bool
    var startupEffectsApplied: bool
    /** BeginPlay bound HealthChanged and OutsideSafeZoneTagChanged to the component. */
    var eventsBound: bool
    /** The loose State.OutsideSafeZone tag on the component. */
    var outsideZoneTag: bool
    /** DamageTimerHandle: Some(period) while the repeating damage timer is active. */
    var damageTimer: Option<real>
    /** DamageEffectHandle: the last applied damage effect, None once invalidated. */
    var damageEffectHandle: Option<nat>
    /** The component's activatable abilities, and the next handle it will generate. */
    var activatable: seq<AbilitySpec>
    var nextAbilityHandle: nat
    /** Handles passed to TryActivateAbility, in order. */
    var activationRequests: seq<nat>
    /** Startup effect classes applied to the component, in order. */
    var appliedEffects: seq<nat>
    /** The damage specs the out-of-zone timer applied, in order. */
    var damageSpecs: seq<ExecutionInput>
    /** Handles passed to RemoveActiveGameplayEffect, in order. */
    var removedEffects: seq<nat>
    /** Calls of CancelAllAbilities. */
    var cancelAllRequests: nat
    /** FinishDying timers set by Die and not yet fired. */
    var pendingFinishDying: nat
    var destroyed: bool

    /** The component's handles are unique and below its handle counter. */
    predicate Valid()
      reads this`activatable, this`nextAbilityHandle
    {
      UniqueHandles(activatable) && HandlesBelow(activatable, nextAbilityHandle)
    }

    constructor (playerId: string, hasAuthority: bool, hasAttributeSet: bool, characterAbilities: seq<nat>,
                 startupEffects: seq<Option<nat>>, hasDamageEffectClass: bool, health: real)
      ensures Valid()
      ensures this.playerId == playerId && this.hasAuthority == hasAuthority
      ensures hasAbilitySystem == hasAuthority && this.hasAttributeSet == hasAttributeSet
      ensures this.characterAbilities == characterAbilities && this.startupEffects == startupEffects
      ensures this.hasDamageEffectClass == hasDamageEffectClass && this.health == health
      ensures !isKnockedDown && !isCharacterDead && !abilitiesGiven && !startupEffectsApplied && !eventsBound
      ensures !outsideZoneTag && damageTimer.None? && damageEffectHandle.None?
      ensures activatable == [] && activationRequests == [] && appliedEffects == [] && damageSpecs == []
      ensures removedEffects == [] && cancelAllRequests == 0 && pendingFinishDying == 0
      ensures !destroyed
    {
      this.playerId := playerId;
      this.hasAuthority := hasAuthority;
      hasAbilitySystem := hasAuthority;
      this.hasAttributeSet := hasAttributeSet;
      this.characterAbilities := characterAbilities;
      this.startupEffects := startupEffects;
      this.hasDamageEffectClass := hasDamageEffectClass;
      this.health := health;
      isKnockedDown := false;
      isCharacterDead := false;
      abilitiesGiven := false;
      startupEffectsApplied := false;
      eventsBound := false;
      outsideZoneTag := false;
      damageTimer := None;
      damageEffectHandle := None;
      activatable := [];
      nextAbilityHandle := 0;
      activationRequests := [];
      appliedEffects := [];
      damageSpecs := [];
      removedEffects := [];
      cancelAllRequests := 0;
      pendingFinishDying := 0;
      destroyed := false;
    }

    /** The server binds the two attribute and tag handlers when it has a component. */
    method BeginPlay()
      modifies this`eventsBound
      ensures eventsBound == (old(eventsBound) || (hasAuthority && hasAbilitySystem))
    {
      if hasAuthority && hasAbilitySystem {
        eventsBound := true;
      }
    }

    /** GetCharacterHealth: the Health attribute, 0 without an attribute set. */
    function GetCharacterHealth(): (h: real)
      reads this`health
      ensures hasAttributeSet ==> h == health
      ensures !hasAttributeSet ==> h == 0.0
    {
      if hasAttributeSet then health else 0.0
    }

    /** IsCharacterAlive: alive exactly when there is an attribute set and positive health. */
    function IsCharacterAlive(): (alive: bool)
      reads this`health
      ensures alive <==> hasAttributeSet && health > 0.0
    {
      GetCharacterHealth() > 0.0
    }

    // -------------------------------------------------------------------------
    // Health
    // -------------------------------------------------------------------------

    /** The effect of a Die call that got past the authority check. */
    twostate predicate DiedNow()
      reads this
    {
      && isCharacterDead
      && pendingFinishDying == old(pendingFinishDying) + 1
      && (if old(abilitiesGiven) && hasAbilitySystem
          then activatable == KeepUnowned(old(activatable), this, characterAbilities) && !abilitiesGiven
          else activatable == old(activatable) && abilitiesGiven == old(abilitiesGiven))
      && (if hasAbilitySystem
          then damageTimer.None? && damageEffectHandle.None?
               && removedEffects == old(removedEffects) + HandleList(old(damageEffectHandle))
               && cancelAllRequests == old(cancelAllRequests) + 1
          else damageTimer == old(damageTimer) && damageEffectHandle == old(damageEffectHandle)
               && removedEffects == old(removedEffects) && cancelAllRequests == old(cancelAllRequests))
    }

    /**
     * What the health handler did with a new value: on the server a value at or below 0
     * ran Die and left the knockdown flag alone; otherwise the flag is raised exactly when
     * the server sees a value at or below the knockdown threshold, and nothing Die touches
     * changes.
     */
    twostate predicate HealthHandled(newValue: real)
      reads this
    {
      if hasAuthority && newValue <= 0.0 then DiedNow() && isKnockedDown == old(isKnockedDown)
      else
        && isKnockedDown == (old(isKnockedDown) || (hasAuthority && newValue <= KnockdownHealthThreshold))
        && unchanged(this`activatable, this`abilitiesGiven, this`isCharacterDead, this`damageTimer, this`damageEffectHandle)
        && unchanged(this`removedEffects, this`cancelAllRequests, this`pendingFinishDying)
    }

    /**
     * HealthChanged: on the server a new value at or below 0 kills the character, and a
     * positive value at or below the knockdown threshold knocks it down once.
     */
    method HealthChanged(newValue: real)
      requires Valid()
      requires hasAttributeSet ==> health == newValue
      modifies this`activatable, this`abilitiesGiven, this`isCharacterDead, this`damageTimer, this`damageEffectHandle
      modifies this`removedEffects, this`cancelAllRequests, this`pendingFinishDying, this`isKnockedDown
      ensures Valid()
      ensures HealthHandled(newValue)
    {
      if hasAuthority {
        if newValue <= 0.0 {
          Die();
        } else if newValue <= KnockdownHealthThreshold && !isKnockedDown {
          Knockdown();
        }
      }
    }

    /**
     * A change of the Health attribute: the attribute set holds the new value first, then
     * the component broadcasts the value-change delegate, which BeginPlay bound to
     * HealthChanged on the server.
     */
    method SetHealthValue(newValue: real)
      requires Valid()
      modifies this`health
      modifies this`activatable, this`abilitiesGiven, this`isCharacterDead, this`damageTimer, this`damageEffectHandle
      modifies this`removedEffects, this`cancelAllRequests, this`pendingFinishDying, this`isKnockedDown
      ensures Valid()
      ensures health == newValue
      ensures eventsBound ==> HealthHandled(newValue)
      ensures !eventsBound ==> unchanged(this`activatable, this`abilitiesGiven, this`isCharacterDead, this`isKnockedDown)
      ensures !eventsBound ==> unchanged(this`damageTimer, this`damageEffectHandle, this`removedEffects, this`cancelAllRequests, this`pendingFinishDying)
      ensures newValue <= 0.0 ==> !IsCharacterAlive()
      ensures newValue <= 0.0 && eventsBound && hasAuthority ==> isCharacterDead
    {
      health := newValue;
      if eventsBound {
        HealthChanged(newValue);
      }
    }

    /** Knockdown: the flag that keeps a second drop below the threshold from knocking down again. */
    method Knockdown()
      modifies this`isKnockedDown
      ensures isKnockedDown
    {
      isKnockedDown := true;
    }

    /**
     * Die (server only): take the startup abilities back, play the death animation, stop
     * the damage timer, remove and invalidate the damage effect, cancel all abilities and
     * set the FinishDying timer.
     */
    method Die()
      requires Valid()
      modifies this`activatable, this`abilitiesGiven, this`isCharacterDead, this`damageTimer, this`damageEffectHandle
      modifies this`removedEffects, this`cancelAllRequests, this`pendingFinishDying
      ensures Valid()
      ensures !hasAuthority ==> unchanged(this)
      ensures hasAuthority ==> DiedNow()
    {
      if !hasAuthority {
        return;
      }
      RemoveCharacterAbilities();
      isCharacterDead := true;
      if hasAbilitySystem {
        if damageTimer.Some? {
          damageTimer := None;
        }
        if damageEffectHandle.Some? {
          removedEffects := removedEffects + [damageEffectHandle.value];
          damageEffectHandle := None;
        }
        cancelAllRequests := cancelAllRequests + 1;
      }
      pendingFinishDying := pendingFinishDying + 1;
    }

    /**
     * FinishDying (server only): let the game mode count the player out, have the owning
     * controller unpossess the character, and destroy it.
     */
    method FinishDying(gm: SafeZoneGameMode?)
      requires gm != null ==> gm.gameState != null
      modifies this`destroyed, if gm != null then {gm.gameState} else {}
      modifies GameModeSet(gm)`controllers, GameModeSet(gm)`returnToMainRequests, GameModeSet(gm)`endGameRuns
      ensures !hasAuthority ==> destroyed == old(destroyed)
      ensures !hasAuthority && gm != null ==> unchanged(gm, gm.gameState)
      ensures hasAuthority ==> destroyed
      ensures hasAuthority && gm != null ==> gm.CountedOut() && gm.controllers == Unpossessed(old(gm.controllers), this)
    {
      if !hasAuthority {
        return;
      }
      if gm != null {
        gm.ManagePlayerCount();
        gm.UnPossess(this);
      }
      destroyed := true;
    }

    /**
     * The FinishDying timer goes off: one pending call is consumed. A destroyed actor's
     * timers no longer fire, so on an actor already destroyed the call does nothing.
     */
    method FireFinishDyingTimer(gm: SafeZoneGameMode?)
      requires gm != null ==> gm.gameState != null
      modifies this`destroyed, this`pendingFinishDying, if gm != null then {gm.gameState} else {}
      modifies GameModeSet(gm)`controllers, GameModeSet(gm)`returnToMainRequests, GameModeSet(gm)`endGameRuns
      ensures old(pendingFinishDying) == 0 ==> pendingFinishDying == 0 && destroyed == old(destroyed)
      ensures old(pendingFinishDying) == 0 && gm != null ==> unchanged(gm, gm.gameState)
      ensures old(pendingFinishDying) > 0 ==> pendingFinishDying == old(pendingFinishDying) - 1
      ensures old(destroyed) ==> destroyed && (gm != null ==> unchanged(gm, gm.gameState))
      ensures old(pendingFinishDying) > 0 && hasAuthority ==> destroyed
      ensures old(pendingFinishDying) > 0 && !old(destroyed) && hasAuthority && gm != null ==>
                gm.CountedOut() && gm.controllers == Unpossessed(old(gm.controllers), this)
    {
      if pendingFinishDying > 0 {
        pendingFinishDying := pendingFinishDying - 1;
        if !destroyed {
          FinishDying(gm);
        }
      }
    }

    // -------------------------------------------------------------------------
    // Startup abilities and effects
    // -------------------------------------------------------------------------

    /**
     * AddCharacterAbilities (server, with a component, once): give every startup ability
     * with this character as source, ask to activate each, and set the flag.
     */
    method AddCharacterAbilities()
      requires Valid()
      modifies this`activatable, this`nextAbilityHandle, this`activationRequests, this`abilitiesGiven
      ensures Valid()
      ensures !hasAuthority || !hasAbilitySystem || old(abilitiesGiven) ==> unchanged(this)
      ensures hasAuthority && hasAbilitySystem && !old(abilitiesGiven) ==>
                && abilitiesGiven
                && activatable == old(activatable) + Grants(characterAbilities, this, old(nextAbilityHandle))
                && nextAbilityHandle == old(nextAbilityHandle) + |characterAbilities|
                && activationRequests == old(activationRequests) + HandlesFrom(old(nextAbilityHandle), |characterAbilities|)
    {
      if !hasAuthority || !hasAbilitySystem || abilitiesGiven {
        return;
      }
      GiveCharacterAbilities();
      GrantsKeepHandlesUnique(old(activatable), characterAbilities, this, old(nextAbilityHandle));
      abilitiesGiven := true;
    }

    /**
     * The grant loop: one GiveAbility per startup class, in list order, each followed by
     * an activation request for the handle it returned.
     */
    method GiveCharacterAbilities()
      modifies this`activatable, this`nextAbilityHandle, this`activationRequests
      ensures activatable == old(activatable) + Grants(characterAbilities, this, old(nextAbilityHandle))
      ensures nextAbilityHandle == old(nextAbilityHandle) + |characterAbilities|
      ensures activationRequests == old(activationRequests) + HandlesFrom(old(nextAbilityHandle), |characterAbilities|)
    {
      var i := 0;
      while i < |characterAbilities|
        invariant 0 <= i <= |characterAbilities|
        invariant activatable == old(activatable) + Grants(characterAbilities[..i], this, old(nextAbilityHandle))
        invariant nextAbilityHandle == old(nextAbilityHandle) + i
        invariant activationRequests == old(activationRequests) + HandlesFrom(old(nextAbilityHandle), i)
      {
        var handle := nextAbilityHandle;
        var spec := AbilitySpec(handle, characterAbilities[i], this);
        GrantsSnoc(characterAbilities, this, old(nextAbilityHandle), i);
        assert HandlesFrom(old(nextAbilityHandle), i + 1) == HandlesFrom(old(nextAbilityHandle), i) + [handle];
        ghost var granted := Grants(characterAbilities[..i], this, old(nextAbilityHandle));
        assert old(activatable) + (granted + [spec]) == (old(activatable) + granted) + [spec];
        activatable := activatable + [spec];
        nextAbilityHandle := nextAbilityHandle + 1;
        activationRequests := activationRequests + [handle];
        i := i + 1;
      }
      assert characterAbilities[..i] == characterAbilities;
    }

    /**
     * The first pass of the removal: the handles of the activatable specs this character
     * granted for a class in CharacterAbilities, in list order.
     */
    method CollectAbilitiesToRemove() returns (toRemove: seq<nat>)
      ensures toRemove == HandlesToRemove(activatable, this, characterAbilities)
    {
      toRemove := [];
      var i := 0;
      while i < |activatable|
        invariant 0 <= i <= |activatable|
        invariant toRemove == HandlesToRemove(activatable[..i], this, characterAbilities)
      {
        assert activatable[..i + 1][..i] == activatable[..i];
        if Removable(activatable[i], this, characterAbilities) {
          toRemove := toRemove + [activatable[i].handle];
        }
        i := i + 1;
      }
      assert activatable[..i] == activatable;
    }

    /**
     * RemoveCharacterAbilities (server, with a component, after a grant): collect the
     * handles of the specs this character granted for a class in CharacterAbilities,
     * clear each of them, then drop the flag.
     */
    method RemoveCharacterAbilities()
      requires Valid()
      modifies this`activatable, this`abilitiesGiven
      ensures Valid()
      ensures !hasAuthority || !hasAbilitySystem || !old(abilitiesGiven) ==> unchanged(this)
      ensures hasAuthority && hasAbilitySystem && old(abilitiesGiven) ==>
                !abilitiesGiven && activatable == KeepUnowned(old(activatable), this, characterAbilities)
    {
      if !hasAuthority || !hasAbilitySystem || !abilitiesGiven {
        return;
      }
      var toRemove := CollectAbilitiesToRemove();
      TwoPassRemovesOwned(activatable, this, characterAbilities);
      var j := 0;
      while j < |toRemove|
        invariant 0 <= j <= |toRemove|
        invariant ClearAll(activatable, toRemove[j..]) == ClearAll(old(activatable), toRemove)
      {
        assert toRemove[j..][1..] == toRemove[j + 1..];
        activatable := ClearAbility(activatable, toRemove[j]);
        j := j + 1;
      }
      KeepUnownedKeepsHandles(old(activatable), this, characterAbilities, nextAbilityHandle);
      abilitiesGiven := false;
    }

    /**
     * AddStartupEffects (server, with a component, once): apply every startup effect
     * whose outgoing spec is valid, then set the flag.
     */
    method AddStartupEffects()
      modifies this`appliedEffects, this`startupEffectsApplied
      ensures !hasAuthority || !hasAbilitySystem || old(startupEffectsApplied) ==> unchanged(this)
      ensures hasAuthority && hasAbilitySystem && !old(startupEffectsApplied) ==>
                startupEffectsApplied && appliedEffects == old(appliedEffects) + Present(startupEffects)
    {
      if !hasAuthority || !hasAbilitySystem || startupEffectsApplied {
        return;
      }
      var i := 0;
      while i < |startupEffects|
        invariant 0 <= i <= |startupEffects|
        invariant appliedEffects == old(appliedEffects) + Present(startupEffects[..i])
      {
        assert startupEffects[..i + 1][..i] == startupEffects[..i];
        var effect := startupEffects[i];
        if effect.Some? {
          appliedEffects := appliedEffects + [effect.value];
        }
        i := i + 1;
      }
      assert startupEffects[..i] == startupEffects;
      startupEffectsApplied := true;
    }

    // -------------------------------------------------------------------------
    // Out-of-zone damage
    // -------------------------------------------------------------------------

    /**
     * What the tag handler did: with authority, a component and a live character, a
     * present tag (re)arms the one repeating damage timer; an absent tag stops an active
     * timer and removes the damage effect if its handle is valid. Otherwise nothing.
     */
    twostate predicate ReactedToTag()
      reads this
    {
      if hasAuthority && hasAbilitySystem && IsCharacterAlive() then
        if outsideZoneTag then
          damageTimer == Some(DamageInterval) && removedEffects == old(removedEffects)
        else if old(damageTimer).Some? then
          damageTimer.None? && removedEffects == old(removedEffects) + HandleList(damageEffectHandle)
        else
          damageTimer == old(damageTimer) && removedEffects == old(removedEffects)
      else
        damageTimer == old(damageTimer) && removedEffects == old(removedEffects)
    }

    /** OutsideSafeZoneTagChanged: the handler bound to the tag's new-or-removed event. */
    method OutsideSafeZoneTagChanged()
      modifies this`damageTimer, this`removedEffects
      ensures ReactedToTag()
    {
      if !hasAuthority {
        return;
      }
      if hasAbilitySystem && IsCharacterAlive() {
        if outsideZoneTag {
          damageTimer := Some(DamageInterval);
        } else if damageTimer.Some? {
          damageTimer := None;
          if damageEffectHandle.Some? {
            removedEffects := removedEffects + [damageEffectHandle.value];
          }
        }
      }
    }

    /** The handler runs only if BeginPlay bound it; otherwise nothing reacts. */
    twostate predicate TagEventHandled()
      reads this
    {
      if eventsBound then ReactedToTag()
      else damageTimer == old(damageTimer) && removedEffects == old(removedEffects)
    }

    /** AddLooseGameplayTag(State.OutsideSafeZone) on the component, and its tag event. */
    method AddOutsideZoneTag()
      requires !outsideZoneTag
      modifies this`outsideZoneTag, this`damageTimer, this`removedEffects
      ensures outsideZoneTag && TagEventHandled()
    {
      outsideZoneTag := true;
      if eventsBound {
        OutsideSafeZoneTagChanged();
      }
    }

    /** RemoveLooseGameplayTag(State.OutsideSafeZone) on the component, and its tag event. */
    method RemoveOutsideZoneTag()
      requires outsideZoneTag
      modifies this`outsideZoneTag, this`damageTimer, this`removedEffects
      ensures !outsideZoneTag && TagEventHandled()
    {
      outsideZoneTag := false;
      if eventsBound {
        OutsideSafeZoneTagChanged();
      }
    }

    /**
     * One period of the damage timer: unless the character is gone or has no component,
     * build the damage spec with 5 on the Data.Damage tag, apply it to self and keep the
     * returned handle. `captured` is what the engine's snapshot capture of the source's
     * Damage attribute yields for the new spec (the effect class's calculation modifiers
     * on Damage over the character's own Damage meta attribute), None when it fails.
     */
    method FireDamageTimer(captured: Option<real>, returned: Option<nat>)
      modifies this`damageSpecs, this`damageEffectHandle
      ensures damageTimer.Some? && !destroyed && hasAbilitySystem && hasDamageEffectClass ==>
                damageSpecs == old(damageSpecs) + [OutOfZoneTick(captured, OutOfZoneDamage)] && damageEffectHandle == returned
      ensures !(damageTimer.Some? && !destroyed && hasAbilitySystem && hasDamageEffectClass) ==> unchanged(this)
    {
      if damageTimer.Some? && !destroyed && hasAbilitySystem {
        if hasDamageEffectClass {
          damageSpecs := damageSpecs + [OutOfZoneTick(captured, OutOfZoneDamage)];
          damageEffectHandle := returned;
        }
      }
    }
  }

  // ===========================================================================
  // Quadrant
  // ===========================================================================

  /**
   * AQuadrantSystemActor: a sphere around one quarter of the zone and the list of player
   * characters whose overlap with it began and has not ended.
   */
  class QuadrantSystemActor {
    const hasAuthority: bool
    /** The sphere's centre and radius. */
    var location: Vec3
    var radius: real
    /** PlayersInQuadrant, in order of entry; a player may appear more than once. */
    var players: seq<GamePlayerCharacter>

    /** A new quadrant's sphere has radius 10 and nobody inside. */
    constructor (location: Vec3, hasAuthority: bool)
      ensures this.location == location && this.hasAuthority == hasAuthority
      ensures radius == 10.0 && players == []
    {
      this.location := location;
      this.hasAuthority := hasAuthority;
      radius := 10.0;
      players := [];
    }

    /**
     * Overlap begins (server only, player characters only): tell the game mode that the
     * player is in this quadrant, then append the player to the list.
     */
    method OnPlayerEnterQuadrant(other: GamePlayerCharacter?, gm: SafeZoneGameMode?)
      requires gm != null ==> gm.PawnsHaveAbilitySystem()
      modifies this`players, GameModeSet(gm)`playerQuadrantMap, if gm != null then gm.Pawns() else {}
      ensures !hasAuthority || other == null ==> players == old(players)
      ensures (!hasAuthority || other == null) && gm != null ==> unchanged(gm) && unchanged(gm.Pawns())
      ensures hasAuthority && other != null ==> players == old(players) + [other]
      ensures hasAuthority && other != null && gm != null ==>
                gm.playerQuadrantMap == old(gm.playerQuadrantMap)[other.playerId := this]
                && TagRemovedIfPresent(old(PawnFor(gm.controllers, other.playerId)), old(gm.Pawns()))
    {
      if !hasAuthority {
        return;
      }
      if other != null {
        if gm != null {
          gm.UpdatePlayerQuadrant(other.playerId, this);
        }
        players := players + [other];
      }
    }

    /**
     * Overlap ends (server only, player characters only): ask the game mode to re-check
     * the player's quadrant after 1.5 seconds, and take every occurrence of the player
     * off the list at once.
     */
    method OnPlayerExitQuadrant(other: GamePlayerCharacter?, gm: SafeZoneGameMode?)
      modifies this`players, GameModeSet(gm)`pendingQuadrantChecks
      ensures !hasAuthority || other == null ==> players == old(players) && (gm != null ==> unchanged(gm))
      ensures hasAuthority && other != null ==> players == RemoveAll(old(players), other)
      ensures hasAuthority && other != null && gm != null ==>
                gm.pendingQuadrantChecks == old(gm.pendingQuadrantChecks) + [PendingCheck(other.playerId, QuadrantTransitionDelay)]
                && gm.playerQuadrantMap == old(gm.playerQuadrantMap)
    {
      if !hasAuthority {
        return;
      }
      if other != null {
        if gm != null {
          gm.StartQuadrantUpdateDelay(other.playerId, QuadrantTransitionDelay);
        }
        players := RemoveAll(players, other);
      }
    }

    /** SetActorLocation and SetSphereRadius: move the sphere and resize it. */
    method Place(at: Vec3, r: real)
      modifies this`location, this`radius
      ensures location == at && radius == r
    {
      location := at;
      radius := r;
    }

    /** GetPlayersInQuadrant: the list itself. */
    function GetPlayersInQuadrant(): (ps: seq<GamePlayerCharacter>)
      reads this`players
      ensures ps == players
    {
      players
    }

    /** GetNumberOfPlayersInQuadrant: the length of the list, duplicates included. */
    function GetNumberOfPlayersInQuadrant(): (n: nat)
      reads this`players
      ensures n == |players|
    {
      |players|
    }

    /** Some listed player carries the id. */
    predicate ContainsPlayer(id: string)
      reads this`players
    {
      exists k :: 0 <= k < |players| && players[k].playerId == id
    }

    /** IsPlayerInside: scan the list for a player with the given id. */
    method IsPlayerInside(id: string) returns (inside: bool)
      ensures inside == ContainsPlayer(id)
    {
      var i := 0;
      while i < |players|
        invariant 0 <= i <= |players|
        invariant forall k :: 0 <= k < i ==> players[k].playerId != id
      {
        if players[i].playerId == id {
          return true;
        }
        i := i + 1;
      }
      return false;
    }

    /** GetRandomLocationInQuadrant: a point of the box [c - r, c + r] on every axis. */
    method GetRandomLocationInQuadrant() returns (p: Vec3)
      ensures InBox(p, location, radius)
    {
      assert InBox(location, location, radius);
      p :| InBox(p, location, radius);
    }
  }

  /** The delay an exit waits before the game mode re-checks the player's quadrant. */
  const QuadrantTransitionDelay: real := 1.5

  // ===========================================================================
  // Game mode
  // ===========================================================================

  /**
   * One entry of the world's player-controller list: the id of its player state (None
   * without one), its pawn if that is a player character, and whether it is a
   * GamePlayerController.
   */
  datatype ControllerView = ControllerView(playerId: Option<string>, pawn: GamePlayerCharacter?, isGamePlayerController: bool)

  /** A DelayedUpdatePlayerQuadrant timer that has been set and has not fired. */
  datatype PendingCheck = PendingCheck(playerId: string, delay: real)

  /** A controller entry that is present and whose player state carries the id. */
  predicate Matches(c: Option<ControllerView>, id: string)
  {
    c.Some? && c.value.playerId == Some(id)
  }

  /** The first controller entry matching the id. */
  function FirstMatch(cs: seq<Option<ControllerView>>, id: string): (r: Option<nat>)
    ensures r.None? <==> forall k :: 0 <= k < |cs| ==> !Matches(cs[k], id)
    ensures r.Some? ==> r.value < |cs| && Matches(cs[r.value], id)
                        && forall k :: 0 <= k < r.value ==> !Matches(cs[k], id)
  {
    if |cs| == 0 then None
    else if Matches(cs[0], id) then Some(0)
    else
      var r := FirstMatch(cs[1..], id);
      assert forall k :: 1 <= k < |cs| ==> cs[k] == cs[1..][k - 1];
      if r.Some? then Some(r.value + 1) else None
  }

  /** The character GetPlayerCharacterFromID finds: the pawn of the first matching controller. */
  function PawnFor(cs: seq<Option<ControllerView>>, id: string): GamePlayerCharacter?
  {
    var m := FirstMatch(cs, id);
    if m.Some? then cs[m.value].value.pawn else null
  }

  /**
   * The controller list after the controller possessing pc unpossesses it: that entry
   * keeps its player state and its class and has no pawn; every other entry stays.
   */
  function Unpossessed(cs: seq<Option<ControllerView>>, pc: GamePlayerCharacter): (r: seq<Option<ControllerView>>)
    ensures |r| == |cs|
    ensures forall k :: 0 <= k < |cs| ==> (r[k].Some? <==> cs[k].Some?)
    ensures forall k :: 0 <= k < |cs| && cs[k].Some? ==>
              && r[k].value.playerId == cs[k].value.playerId
              && r[k].value.isGamePlayerController == cs[k].value.isGamePlayerController
              && r[k].value.pawn != pc
              && (cs[k].value.pawn != pc ==> r[k].value.pawn == cs[k].value.pawn)
  {
    seq(|cs|, k requires 0 <= k < |cs| =>
      if cs[k].Some? && cs[k].value.pawn == pc then Some(cs[k].value.(pawn := null)) else cs[k])
  }

  /**
   * After the unpossess, looking the player up by id finds nothing where it found pc,
   * and finds the same character for every other id.
   */
  lemma UnpossessedPawnFor(cs: seq<Option<ControllerView>>, pc: GamePlayerCharacter, id: string)
    ensures PawnFor(Unpossessed(cs, pc), id) == if PawnFor(cs, id) == pc then null else PawnFor(cs, id)
  {
    var r := Unpossessed(cs, pc);
    assert forall k :: 0 <= k < |cs| ==> (Matches(r[k], id) <==> Matches(cs[k], id));
    assert FirstMatch(r, id) == FirstMatch(cs, id);
  }

  /** The game mode, if there is one, as a frame. */
  function GameModeSet(gm: SafeZoneGameMode?): set<SafeZoneGameMode>
  {
    if gm != null then {gm} else {}
  }

  /** The controller positions EndGame tells to return to the main menu. */
  function GamePlayerControllerIndexes(cs: seq<Option<ControllerView>>): (r: seq<nat>)
    ensures |r| <= |cs|
  {
    if |cs| == 0 then []
    else
      var r := GamePlayerControllerIndexes(cs[..|cs| - 1]);
      var c := cs[|cs| - 1];
      if c.Some? && c.value.isGamePlayerController then r + [|cs| - 1] else r
  }

  /** EndGame reaches exactly the GamePlayerControllers, each once, in iteration order. */
  lemma {:induction false} GamePlayerControllerIndexesExactly(cs: seq<Option<ControllerView>>)
    ensures var r := GamePlayerControllerIndexes(cs);
            && (forall k :: 0 <= k < |r| ==> r[k] < |cs| && cs[r[k]].Some? && cs[r[k]].value.isGamePlayerController)
            && (forall k :: 0 <= k < |cs| && cs[k].Some? && cs[k].value.isGamePlayerController ==> k in r)
            && (forall a, b :: 0 <= a < b < |r| ==> r[a] < r[b])
  {
    if |cs| > 0 {
      var init := cs[..|cs| - 1];
      GamePlayerControllerIndexesExactly(init);
      assert forall k :: 0 <= k < |init| ==> init[k] == cs[k];
    }
  }

  /**
   * The remove-tag decision ran for pc: it lost the tag if it had it, and no other
   * character of pawns changed.
   */
  twostate predicate TagRemovedIfPresent(pc: GamePlayerCharacter?, pawns: set<GamePlayerCharacter>)
    reads pc, pawns
  {
    if pc != null && old(pc.outsideZoneTag)
    then !pc.outsideZoneTag && pc.TagEventHandled() && unchanged(pawns - {pc})
    else unchanged(pawns)
  }

  /**
   * The apply-tag decision ran for pc: it got the tag if it was outside the safe zone
   * and did not have it yet, and no other character of pawns changed.
   */
  twostate predicate TagAppliedIfApplicable(pc: GamePlayerCharacter?, inZone: bool, pawns: set<GamePlayerCharacter>)
    reads pc, pawns
  {
    if pc != null && !inZone && !old(pc.outsideZoneTag)
    then pc.outsideZoneTag && pc.TagEventHandled() && unchanged(pawns - {pc})
    else unchanged(pawns)
  }

  /** The first non-null quadrant whose list holds a player with the id. */
  function FirstQuadrantWith(qs: seq<QuadrantSystemActor?>, id: string): (r: Option<nat>)
    reads qs
    ensures r.None? <==> forall k :: 0 <= k < |qs| && qs[k] != null ==> !qs[k].ContainsPlayer(id)
    ensures r.Some? ==> r.value < |qs| && qs[r.value] != null && qs[r.value].ContainsPlayer(id)
                        && forall k :: 0 <= k < r.value && qs[k] != null ==> !qs[k].ContainsPlayer(id)
  {
    if |qs| == 0 then None
    else if qs[0] != null && qs[0].ContainsPlayer(id) then Some(0)
    else
      var r := FirstQuadrantWith(qs[1..], id);
      assert forall k :: 1 <= k < |qs| ==> qs[k] == qs[1..][k - 1];
      if r.Some? then Some(r.value + 1) else None
  }

  /**
   * ASafeZoneGameMode: the player-to-quadrant map, the delayed re-checks after a
   * quadrant exit, the out-of-zone tag decisions and the player count.
   */
  class SafeZoneGameMode {
    /** GetGameState<ASafeZoneGameState>(). */
    const gameState: SafeZoneGameState?
    /** safeZoneActor_Ref. */
    var safeZoneRef: SafeZoneActor?
    /** The world's player controllers, in iteration order. */
    var controllers: seq<Option<ControllerView>>
    var playerQuadrantMap: map<string, QuadrantSystemActor>
    var currentPlayerQuadrant: QuadrantSystemActor?
    var pendingQuadrantChecks: seq<PendingCheck>
    /** Controller positions told to EndGameReturnToMain, in order, over all EndGame runs. */
    var returnToMainRequests: seq<nat>
    var endGameRuns: nat

    constructor (gameState: SafeZoneGameState?, controllers: seq<Option<ControllerView>>)
      ensures this.gameState == gameState && this.controllers == controllers
      ensures safeZoneRef == null && currentPlayerQuadrant == null && playerQuadrantMap == map[]
      ensures pendingQuadrantChecks == [] && returnToMainRequests == [] && endGameRuns == 0
    {
      this.gameState := gameState;
      this.controllers := controllers;
      safeZoneRef := null;
      currentPlayerQuadrant := null;
      playerQuadrantMap := map[];
      pendingQuadrantChecks := [];
      returnToMainRequests := [];
      endGameRuns := 0;
    }

    /** The player characters the controllers possess. */
    function Pawns(): set<GamePlayerCharacter>
      reads this`controllers
    {
      set k | 0 <= k < |controllers| && controllers[k].Some? && controllers[k].value.pawn != null :: controllers[k].value.pawn
    }

    /** Every possessed character has its ability system component (it does on the server). */
    predicate PawnsHaveAbilitySystem()
      reads this`controllers
    {
      forall p :: p in Pawns() ==> p.hasAbilitySystem
    }

    /**
     * UnPossess by the controller owning pc: it no longer has a pawn, so pc drops out of
     * the possessed characters and every other character stays.
     */
    method UnPossess(pc: GamePlayerCharacter)
      modifies this`controllers
      ensures controllers == Unpossessed(old(controllers), pc)
      ensures Pawns() == old(Pawns()) - {pc}
    {
      controllers := Unpossessed(controllers, pc);
    }

    /** BeginPlay: keep the first safe zone actor the world holds, if any. */
    method BeginPlay(found: seq<SafeZoneActor>)
      modifies this`safeZoneRef
      ensures |found| > 0 ==> safeZoneRef == found[0]
      ensures |found| == 0 ==> safeZoneRef == old(safeZoneRef)
    {
      if |found| > 0 {
        safeZoneRef := found[0];
      }
    }

    // -------------------------------------------------------------------------
    // Player count
    // -------------------------------------------------------------------------

    /** The effect of one EndGame run. */
    twostate predicate EndGameRan()
      reads this
    {
      endGameRuns == old(endGameRuns) + 1
      && returnToMainRequests == old(returnToMainRequests) + GamePlayerControllerIndexes(old(controllers))
    }

    /** The effect of one ManagePlayerCount: one less player, EndGame at zero or below. */
    twostate predicate CountedOut()
      requires gameState != null
      reads this, gameState
    {
      gameState.playerCount == old(gameState.playerCount) - 1
      && if gameState.playerCount <= 0 then EndGameRan()
         else endGameRuns == old(endGameRuns) && returnToMainRequests == old(returnToMainRequests)
    }

    /** PostLogin: one more player, when there is a game state. */
    method PostLogin()
      modifies gameState
      ensures gameState != null ==> gameState.playerCount == old(gameState.playerCount) + 1
    {
      if gameState != null {
        gameState.playerCount := gameState.playerCount + 1;
      }
    }

    /** Logout: one player less, and EndGame once the count is at or below 0. */
    method Logout()
      modifies gameState, this`returnToMainRequests, this`endGameRuns
      ensures gameState == null ==> unchanged(this)
      ensures gameState != null ==> CountedOut()
    {
      if gameState != null {
        gameState.playerCount := gameState.playerCount - 1;
        if gameState.playerCount <= 0 {
          EndGame();
        }
      }
    }

    /**
     * ManagePlayerCount: the same decrement and test, run when a character finishes dying.
     * Nothing latches EndGame, so every later call at or below 0 runs it again.
     */
    method ManagePlayerCount()
      requires gameState != null
      modifies gameState, this`returnToMainRequests, this`endGameRuns
      ensures CountedOut()
    {
      gameState.playerCount := gameState.playerCount - 1;
      if gameState.playerCount <= 0 {
        EndGame();
      }
    }

    /** EndGame: every GamePlayerController is told to return to the main menu. */
    method EndGame()
      modifies this`returnToMainRequests, this`endGameRuns
      ensures EndGameRan()
    {
      var cs := controllers;
      var i := 0;
      while i < |cs|
        invariant 0 <= i <= |cs|
        invariant returnToMainRequests == old(returnToMainRequests) + GamePlayerControllerIndexes(cs[..i])
        invariant endGameRuns == old(endGameRuns)
      {
        assert cs[..i + 1][..i] == cs[..i];
        var c := cs[i];
        if c.Some? && c.value.isGamePlayerController {
          returnToMainRequests := returnToMainRequests + [i];
        }
        i := i + 1;
      }
      assert cs[..i] == cs;
      endGameRuns := endGameRuns + 1;
    }

    // -------------------------------------------------------------------------
    // Finding players
    // -------------------------------------------------------------------------

    /** GetPlayerCharacterFromID: the pawn of the first controller whose player state has the id. */
    method GetPlayerCharacterFromID(id: string) returns (pc: GamePlayerCharacter?)
      ensures pc == PawnFor(controllers, id)
      ensures pc != null ==> pc in Pawns()
    {
      var i := 0;
      while i < |controllers|
        invariant 0 <= i <= |controllers|
        invariant forall k :: 0 <= k < i ==> !Matches(controllers[k], id)
      {
        var c := controllers[i];
        if c.Some? && c.value.playerId == Some(id) {
          return c.value.pawn;
        }
        i := i + 1;
      }
      return null;
    }

    /** IsPlayerInSafeZone: the safe zone overlaps the character; false if either is missing. */
    function IsPlayerInSafeZone(pc: GamePlayerCharacter?): (inside: bool)
      reads this`safeZoneRef, safeZoneRef
      ensures inside <==> pc != null && safeZoneRef != null && pc in safeZoneRef.overlapping
    {
      if pc != null && safeZoneRef != null then pc in safeZoneRef.overlapping else false
    }

    /**
     * IsPlayerInAnyQuadrant: walk the zone's quadrants; at the first non-null one that
     * lists the player, remember it as the current quadrant and answer true.
     */
    method IsPlayerInAnyQuadrant(id: string) returns (found: bool)
      requires safeZoneRef != null
      modifies this`currentPlayerQuadrant
      ensures var f := FirstQuadrantWith(safeZoneRef.quadrants, id);
              && (found <==> f.Some?)
              && (f.Some? ==> currentPlayerQuadrant == safeZoneRef.quadrants[f.value])
              && (f.None? ==> currentPlayerQuadrant == old(currentPlayerQuadrant))
    {
      var qs := safeZoneRef.quadrants;
      var i := 0;
      while i < |qs|
        invariant 0 <= i <= |qs|
        invariant forall k :: 0 <= k < i && qs[k] != null ==> !qs[k].ContainsPlayer(id)
        invariant currentPlayerQuadrant == old(currentPlayerQuadrant)
      {
        var q := qs[i];
        if q != null {
          var inside := q.IsPlayerInside(id);
          if inside {
            currentPlayerQuadrant := q;
            return true;
          }
        }
        i := i + 1;
      }
      return false;
    }

    // -------------------------------------------------------------------------
    // Quadrant map and the out-of-zone tag
    // -------------------------------------------------------------------------

    /** RemoveOutsideSafeZoneTagIfApplicable. */
    method RemoveOutsideSafeZoneTagIfApplicable(id: string)
      requires PawnsHaveAbilitySystem()
      modifies Pawns()
      ensures TagRemovedIfPresent(old(PawnFor(controllers, id)), old(Pawns()))
    {
      var pc := GetPlayerCharacterFromID(id);
      if pc != null && pc.outsideZoneTag {
        pc.RemoveOutsideZoneTag();
      }
    }

    /** ApplyOutsideSafeZoneTagIfApplicable. */
    method ApplyOutsideSafeZoneTagIfApplicable(id: string)
      requires PawnsHaveAbilitySystem()
      modifies Pawns()
      ensures TagAppliedIfApplicable(old(PawnFor(controllers, id)), old(IsPlayerInSafeZone(PawnFor(controllers, id))), old(Pawns()))
    {
      var pc := GetPlayerCharacterFromID(id);
      if pc != null && !IsPlayerInSafeZone(pc) && !pc.outsideZoneTag {
        pc.AddOutsideZoneTag();
      }
    }

    /**
     * UpdatePlayerQuadrant: a quadrant is recorded for the player and the out-of-zone tag
     * taken off; no quadrant removes the player's entry and considers applying the tag.
     */
    method UpdatePlayerQuadrant(id: string, q: QuadrantSystemActor?)
      requires PawnsHaveAbilitySystem()
      modifies this`playerQuadrantMap, Pawns()
      ensures q != null ==> playerQuadrantMap == old(playerQuadrantMap)[id := q] && TagRemovedIfPresent(old(PawnFor(controllers, id)), old(Pawns()))
      ensures q == null ==> playerQuadrantMap == old(playerQuadrantMap) - {id} && TagAppliedIfApplicable(old(PawnFor(controllers, id)), old(IsPlayerInSafeZone(PawnFor(controllers, id))), old(Pawns()))
    {
      if q != null {
        playerQuadrantMap := playerQuadrantMap[id := q];
        RemoveOutsideSafeZoneTagIfApplicable(id);
      } else {
        playerQuadrantMap := playerQuadrantMap - {id};
        ApplyOutsideSafeZoneTagIfApplicable(id);
      }
    }

    /** StartQuadrantUpdateDelay: set a fresh one-shot timer; earlier ones stay pending. */
    method StartQuadrantUpdateDelay(id: string, delay: real)
      modifies this`pendingQuadrantChecks
      ensures pendingQuadrantChecks == old(pendingQuadrantChecks) + [PendingCheck(id, delay)]
    {
      pendingQuadrantChecks := pendingQuadrantChecks + [PendingCheck(id, delay)];
    }

    /**
     * What one re-check of the player with the id did: a player some quadrant lists is
     * mapped to the first such quadrant, which becomes the current one, and loses the
     * out-of-zone tag; any other player's entry is dropped and it gets the tag when it
     * is outside the safe zone. No other character changes.
     */
    twostate predicate QuadrantRechecked(id: string)
      requires safeZoneRef != null
      reads this`controllers, this`safeZoneRef, this`playerQuadrantMap, this`currentPlayerQuadrant
      reads Pawns(), PawnFor(controllers, id)
    {
      && controllers == old(controllers)
      && safeZoneRef == old(safeZoneRef)
      && var pc := PawnFor(controllers, id);
         var f := old(FirstQuadrantWith(safeZoneRef.quadrants, id));
         && (f.Some? ==> playerQuadrantMap == old(playerQuadrantMap)[id := old(safeZoneRef.quadrants[f.value])]
                         && currentPlayerQuadrant == old(safeZoneRef.quadrants[f.value])
                         && TagRemovedIfPresent(pc, Pawns()))
         && (f.None? ==> playerQuadrantMap == old(playerQuadrantMap) - {id}
                         && currentPlayerQuadrant == old(currentPlayerQuadrant)
                         && TagAppliedIfApplicable(pc, old(IsPlayerInSafeZone(pc)), Pawns()))
    }

    /**
     * DelayedUpdatePlayerQuadrant: map the player to the first quadrant that lists it,
     * or drop its entry and consider the out-of-zone tag.
     */
    method DelayedUpdatePlayerQuadrant(id: string)
      requires safeZoneRef != null && PawnsHaveAbilitySystem()
      modifies this`playerQuadrantMap, this`currentPlayerQuadrant, Pawns()
      ensures QuadrantRechecked(id)
    {
      var found := IsPlayerInAnyQuadrant(id);
      if found {
        UpdatePlayerQuadrant(id, currentPlayerQuadrant);
      } else {
        playerQuadrantMap := playerQuadrantMap - {id};
        ApplyOutsideSafeZoneTagIfApplicable(id);
      }
    }

    /** A pending re-check fires: it leaves the pending list and runs. */
    method FireQuadrantCheck(i: nat)
      requires safeZoneRef != null && PawnsHaveAbilitySystem()
      modifies this`pendingQuadrantChecks, this`playerQuadrantMap, this`currentPlayerQuadrant, Pawns()
      ensures i >= |old(pendingQuadrantChecks)| ==> unchanged(this) && unchanged(Pawns())
      ensures i < |old(pendingQuadrantChecks)| ==>
                && pendingQuadrantChecks == old(pendingQuadrantChecks[..i] + pendingQuadrantChecks[i + 1..])
                && QuadrantRechecked(old(pendingQuadrantChecks[i].playerId))
    {
      if i < |pendingQuadrantChecks| {
        var check := pendingQuadrantChecks[i];
        DelayedUpdatePlayerQuadrant(check.playerId);
        pendingQuadrantChecks := pendingQuadrantChecks[..i] + pendingQuadrantChecks[i + 1..];
      }
    }
  }

  // ===========================================================================
  // Safe zone
  // ===========================================================================

  /** The quadrant array with null slots as None, for the angle-slot rules. */
  function AsOptions(qs: seq<QuadrantSystemActor?>): (r: seq<Option<QuadrantSystemActor>>)
    ensures |r| == |qs|
    ensures forall k :: 0 <= k < |qs| ==> (r[k].Some? <==> qs[k] != null) && (r[k].Some? ==> r[k].value == qs[k])
  {
    seq(|qs|, k requires 0 <= k < |qs| => if qs[k] == null then None else Some(qs[k]))
  }

  /** The quadrant array as the counts the minimum search compares: None for a null slot. */
  function OccupancyOf(qs: seq<QuadrantSystemActor?>): (r: Occupancy)
    reads qs
    ensures |r| == |qs|
    ensures forall k :: 0 <= k < |qs| ==> (r[k].None? <==> qs[k] == null)
    ensures forall k :: 0 <= k < |qs| && qs[k] != null ==> r[k] == Some(|qs[k].players|)
  {
    if |qs| == 0 then []
    else
      var last := qs[|qs| - 1];
      OccupancyOf(qs[..|qs| - 1]) + [if last == null then None else Some(|last.players|)]
  }

  /** The point the zone moves toward: the target's X and Y at the zone's current height. */
  function FlatTarget(target: Vec3, current: Vec3): (t: Vec3)
    ensures t.x == target.x && t.y == target.y && t.z == current.z
  {
    Vec3(target.x, target.y, current.z)
  }

  /**
   * ASafeZoneActor: the shrinking sphere, its target, the phase counter, the quadrants
   * it spawned and the shrink-delay timer.
   */
  class SafeZoneActor {
    const hasAuthority: bool
    const ShrinkSpeed: real := 0.5
    const MaxIterations: int := 5
    /** MinSafeZoneRadius, an int8 set to 1. */
    const MinSafeZoneRadius: int := 1
    /** The number of quadrants CreateQuadrants tries to spawn, 90 degrees apart. */
    static const QuadrantCount: nat := 4
    /** The delay before each shrink phase. */
    const ShrinkDelay: real := 30.0
    /** The radius the sphere component starts with. */
    const InitialRadius: real := 2500.0

    /** The actor location and the sphere's radius. */
    var location: Vec3
    var radius: real
    var targetLocation: Vec3
    var targetRadius: real
    var shouldShrink: bool
    var currentIteration: int
    var quadrants: seq<QuadrantSystemActor?>
    /** ShrinkDelayTimerHandle: Some(delay) while the one-shot ShrinkSafeZone timer is pending. */
    var shrinkTimer: Option<real>
    /** The characters the sphere currently overlaps, as the engine's collision reports them. */
    var overlapping: set<GamePlayerCharacter>

    /** The zone never holds the same quadrant twice. */
    predicate Valid()
      reads this`quadrants
    {
      forall a, b :: 0 <= a < b < |quadrants| && quadrants[a] != null ==> quadrants[a] != quadrants[b]
    }

    constructor (location: Vec3, hasAuthority: bool)
      ensures Valid()
      ensures this.location == location && this.hasAuthority == hasAuthority
      ensures radius == InitialRadius && targetLocation == Origin && targetRadius == 0.0
      ensures !shouldShrink && currentIteration == 0 && quadrants == [] && shrinkTimer.None? && overlapping == {}
    {
      this.location := location;
      this.hasAuthority := hasAuthority;
      radius := InitialRadius;
      targetLocation := Origin;
      targetRadius := 0.0;
      shouldShrink := false;
      currentIteration := 0;
      quadrants := [];
      shrinkTimer := None;
      overlapping := {};
    }

    /**
     * BeginPlay (server only): aim at the current sphere, spawn the quadrants and set the
     * first shrink after 30 seconds. spawnFailures names the 90-degree steps whose spawn
     * comes back null.
     */
    method BeginPlay(spawnFailures: set<nat>)
      modifies this`targetLocation, this`targetRadius, this`quadrants, this`shrinkTimer
      ensures Valid() || !hasAuthority
      ensures !hasAuthority ==> unchanged(this)
      ensures hasAuthority ==>
                && targetLocation == location && targetRadius == radius
                && shrinkTimer == Some(ShrinkDelay)
                && QuadrantsSpawned(spawnFailures)
    {
      if hasAuthority {
        targetLocation := location;
        targetRadius := radius;
        CreateQuadrants(spawnFailures);
        StartShrinkingWithDelay(ShrinkDelay);
      }
    }

    /**
     * The quadrant array CreateQuadrants leaves: one fresh quadrant per step that spawned,
     * in step order, centred half the zone radius out along the step's direction, with
     * half the zone radius and no players.
     */
    twostate predicate QuadrantsSpawned(spawnFailures: set<nat>)
      reads this, quadrants
    {
      var steps := SpawnedSteps(spawnFailures, QuadrantCount);
      && Valid()
      && |quadrants| == |steps|
      && forall k :: 0 <= k < |quadrants| ==>
           && quadrants[k] != null && fresh(quadrants[k])
           && NewQuadrantAt(quadrants[k], location, radius / 2.0, steps[k], hasAuthority)
    }

    /** q is a quadrant just spawned at step i around center, with radius half and no players. */
    static predicate NewQuadrantAt(q: QuadrantSystemActor, center: Vec3, half: real, i: nat, hasAuthority: bool)
      reads q
    {
      q.location == QuadrantCenter(center, half, i) && q.radius == half && q.players == [] && q.hasAuthority == hasAuthority
    }

    /** SpawnActor at a location, then SetSphereRadius on the new quadrant. */
    static method SpawnQuadrant(at: Vec3, radius: real, hasAuthority: bool) returns (q: QuadrantSystemActor)
      ensures fresh(q)
      ensures q.location == at && q.radius == radius && q.players == [] && q.hasAuthority == hasAuthority
    {
      q := new QuadrantSystemActor(at, hasAuthority);
      q.radius := radius;
    }

    /**
     * CreateQuadrants: empty the array, then spawn one quadrant per 90-degree step around
     * the zone centre and keep those that spawned.
     */
    method CreateQuadrants(spawnFailures: set<nat>)
      modifies this`quadrants
      ensures QuadrantsSpawned(spawnFailures)
      ensures |quadrants| <= 4
    {
      quadrants := [];
      var spawned := SpawnQuadrants(location, radius / 2.0, spawnFailures, hasAuthority);
      quadrants := spawned;
    }

    /**
     * The spawn loop: for each 90-degree step that does not fail, a distinct new quadrant
     * half the zone radius out along the step's direction, in step order.
     */
    static method SpawnQuadrants(center: Vec3, half: real, spawnFailures: set<nat>, hasAuthority: bool)
      returns (spawned: seq<QuadrantSystemActor>)
      ensures var steps := SpawnedSteps(spawnFailures, QuadrantCount);
              && |spawned| == |steps|
              && (forall a, b :: 0 <= a < b < |spawned| ==> spawned[a] != spawned[b])
              && (forall k :: 0 <= k < |spawned| ==> fresh(spawned[k]))
              && (forall k :: 0 <= k < |spawned| ==> NewQuadrantAt(spawned[k], center, half, steps[k], hasAuthority))
    {
      spawned := [];
      ghost var steps: seq<nat> := [];
      var i: nat := 0;
      while i < QuadrantCount
        invariant i <= QuadrantCount
        invariant steps == SpawnedSteps(spawnFailures, i)
        invariant |spawned| == |steps|
        invariant forall a, b :: 0 <= a < b < |spawned| ==> spawned[a] != spawned[b]
        invariant forall k :: 0 <= k < |spawned| ==> fresh(spawned[k])
        invariant forall k :: 0 <= k < |spawned| ==> NewQuadrantAt(spawned[k], center, half, steps[k], hasAuthority)
      {
        if i !in spawnFailures {
          var q := SpawnQuadrant(QuadrantCenter(center, half, i), half, hasAuthority);
          spawned := spawned + [q];
          steps := steps + [i];
        }
        i := i + 1;
      }
    }

    /**
     * UpdateQuadrants: every non-null quadrant moves to the new centre plus half the new
     * radius along its direction, and takes half the new radius; the angle index counts
     * only the non-null slots before it.
     */
    method UpdateQuadrants(newRadius: real, newCenter: Vec3)
      requires Valid()
      modifies quadrants
      ensures forall k :: 0 <= k < |quadrants| && quadrants[k] != null ==>
                && quadrants[k].location == QuadrantCenter(newCenter, newRadius / 2.0, NonNullRank(AsOptions(quadrants), k))
                && quadrants[k].radius == newRadius / 2.0
                && quadrants[k].players == old(quadrants[k].players)
      ensures QuadrantsLaidOut(newCenter, newRadius)
    {
      var qs := quadrants;
      var half := newRadius / 2.0;
      ghost var slots := AsOptions(qs);
      var angle := 0;
      var i := 0;
      while i < |qs|
        invariant 0 <= i <= |qs|
        invariant angle == NonNullRank(slots, i)
        invariant forall k :: 0 <= k < i && qs[k] != null ==>
                    qs[k].location == QuadrantCenter(newCenter, half, NonNullRank(slots, k)) && qs[k].radius == half
        invariant forall k :: 0 <= k < |qs| && qs[k] != null ==> qs[k].players == old(qs[k].players)
      {
        var q := qs[i];
        if q != null {
          q.Place(QuadrantCenter(newCenter, half, angle), half);
          angle := angle + 1;
        }
        i := i + 1;
      }
    }

    /**
     * Every non-null quadrant sits half the zone radius from the centre along the
     * direction of its rank among the non-null slots, with half the zone radius.
     */
    predicate QuadrantsLaidOut(center: Vec3, zoneRadius: real)
      reads this`quadrants, quadrants
    {
      forall k :: 0 <= k < |quadrants| && quadrants[k] != null ==>
        && quadrants[k].location == QuadrantCenter(center, zoneRadius / 2.0, NonNullRank(AsOptions(quadrants), k))
        && quadrants[k].radius == zoneRadius / 2.0
    }

    /** StartShrinkingWithDelay: clear the pending shrink timer and set one new one-shot timer. */
    method StartShrinkingWithDelay(delay: real)
      modifies this`shrinkTimer
      ensures shrinkTimer == Some(delay)
    {
      shrinkTimer := None;
      shrinkTimer := Some(delay);
    }

    /**
     * The quadrant the minimum search settles on: the non-null quadrant with the fewest
     * players, the earliest among equals, provided it holds fewer than MAX_int32; null
     * when there is none.
     */
    function LeastOccupied(): (q: QuadrantSystemActor?)
      reads this`quadrants, quadrants
      ensures q == null <==> NoCandidate(OccupancyOf(quadrants))
      ensures q != null ==> exists k: nat :: IsFirstMinimum(OccupancyOf(quadrants), k) && quadrants[k] == q
    {
      var m := FirstMinimum(OccupancyOf(quadrants));
      if m.Some? then quadrants[m.value] else null
    }

    /**
     * FindQuadrantWithMinimumPlayers: scan the array with a running minimum that starts at
     * MAX_int32 and is replaced only by a strictly smaller count.
     */
    method FindQuadrantWithMinimumPlayers() returns (q: QuadrantSystemActor?)
      ensures q == LeastOccupied()
    {
      ghost var occ := OccupancyOf(quadrants);
      ghost var best: Option<nat> := None;
      q := null;
      var minPlayers := MaxInt32;
      var i := 0;
      while i < |quadrants|
        invariant 0 <= i <= |quadrants|
        invariant best == FirstMinimum(occ[..i])
        invariant best.None? ==> q == null
        invariant best.Some? ==> best.value < i && q == quadrants[best.value]
        invariant minPlayers == MinSoFar(occ[..i], best)
      {
        assert occ[..i + 1][..i] == occ[..i];
        var quadrant := quadrants[i];
        if quadrant != null {
          var n := quadrant.GetNumberOfPlayersInQuadrant();
          if n < minPlayers {
            minPlayers := n;
            q := quadrant;
            best := Some(i);
          }
        }
        i := i + 1;
      }
      assert occ[..i] == occ;
      if best.Some? {
        assert IsFirstMinimum(occ, best.value);
      }
    }

    /**
     * What one ShrinkSafeZone did. Without authority the target and the flag stay. On the
     * server shrinking starts; the last phase aims at radius 0 where the zone is; any
     * other phase aims at a point of the box of the quadrant the minimum search chose,
     * with that quadrant's radius but at least MinSafeZoneRadius, or keeps the target
     * when no quadrant qualifies.
     */
    twostate predicate ShrankNow()
      reads this, quadrants
    {
      if !hasAuthority then
        unchanged(this`targetLocation, this`targetRadius, this`shouldShrink)
      else
        && shouldShrink
        && (currentIteration == MaxIterations - 1 ==>
              targetRadius == 0.0 && targetLocation == old(targetLocation))
        && (currentIteration != MaxIterations - 1 ==>
              var q := old(LeastOccupied());
              && (q == null ==> targetLocation == old(targetLocation) && targetRadius == old(targetRadius))
              && (q != null ==> InBox(targetLocation, old(q.location), old(q.radius))
                                && targetRadius == Max(old(q.radius), MinSafeZoneRadius as real)
                                && targetRadius >= MinSafeZoneRadius as real))
    }

    /**
     * ShrinkSafeZone (server only): on the last phase aim at radius 0; otherwise aim at a
     * random point of the least occupied quadrant's box with that quadrant's radius, at
     * least MinSafeZoneRadius, and leave the target alone if there is no such quadrant.
     * Shrinking starts in every case.
     */
    method ShrinkSafeZone()
      modifies this`targetLocation, this`targetRadius, this`shouldShrink
      ensures !hasAuthority ==> unchanged(this)
      ensures ShrankNow()
    {
      if !hasAuthority {
        return;
      }
      if currentIteration == MaxIterations - 1 {
        targetRadius := 0.0;
        shouldShrink := true;
      } else {
        var target := FindQuadrantWithMinimumPlayers();
        if target != null {
          targetLocation := target.GetRandomLocationInQuadrant();
          targetRadius := Max(target.radius, MinSafeZoneRadius as real);
        }
        shouldShrink := true;
      }
    }

    /** The shrink-delay timer goes off: it is no longer pending and ShrinkSafeZone runs. */
    method FireShrinkTimer()
      modifies this`shrinkTimer, this`targetLocation, this`targetRadius, this`shouldShrink
      ensures old(shrinkTimer).None? ==> unchanged(this)
      ensures old(shrinkTimer).Some? ==> shrinkTimer.None? && (hasAuthority ==> shouldShrink)
      ensures old(shrinkTimer).Some? && !hasAuthority ==>
                targetLocation == old(targetLocation) && targetRadius == old(targetRadius) && shouldShrink == old(shouldShrink)
      ensures old(shrinkTimer).Some? ==> ShrankNow()
    {
      if shrinkTimer.Some? {
        shrinkTimer := None;
        ShrinkSafeZone();
      }
    }

    /** MoveSafeZone: place the actor, and on the server push the next shrink 30 seconds out. */
    method MoveSafeZone(newLocation: Vec3)
      modifies this`location, this`shrinkTimer
      ensures location == newLocation
      ensures hasAuthority ==> shrinkTimer == Some(ShrinkDelay)
      ensures !hasAuthority ==> shrinkTimer == old(shrinkTimer)
    {
      location := newLocation;
      if hasAuthority {
        StartShrinkingWithDelay(ShrinkDelay);
      }
    }

    /** Position within 2 on every axis and radius within 1 of the target. */
    predicate Converged(flatTarget: Vec3): (c: bool)
      reads this`location, this`radius, this`targetRadius
      ensures c <==> && Abs(location.x - flatTarget.x) <= 2.0
                     && Abs(location.y - flatTarget.y) <= 2.0
                     && Abs(location.z - flatTarget.z) <= 2.0
                     && Abs(radius - targetRadius) <= 1.0
    {
      NearlyEqualVec(location, flatTarget, 2.0) && NearlyEqual(radius, targetRadius, 1.0)
    }

    /**
     * What one UpdateSafeZoneProperties did: the centre stepped toward the target at its
     * own height, the radius was interpolated, the quadrants were laid out again around the
     * new centre with half the new radius and kept their players, the move re-armed the
     * shrink timer on the server, and a converged step ended the phase.
     */
    twostate predicate ZoneUpdated(dt: real)
      reads this, quadrants
    {
      && quadrants == old(quadrants)
      && (var flat := FlatTarget(targetLocation, old(location));
          && location == StepToward(old(location), flat, MoveFraction(dt, ShrinkSpeed))
          && location.z == old(location).z
          && (Converged(flat) ==> currentIteration == old(currentIteration) + 1
                                  && shouldShrink == (old(shouldShrink) && !hasAuthority))
          && (!Converged(flat) ==> currentIteration == old(currentIteration) && shouldShrink == old(shouldShrink)))
      && radius == InterpRadius(old(radius), targetRadius, dt, ShrinkSpeed)
      && (hasAuthority ==> shrinkTimer == Some(ShrinkDelay))
      && (!hasAuthority ==> shrinkTimer == old(shrinkTimer))
      && QuadrantsLaidOut(location, radius)
      && (forall k :: 0 <= k < |quadrants| && quadrants[k] != null ==>
            quadrants[k].players == old(quadrants[k].players))
    }

    /**
     * UpdateSafeZoneProperties: one step of the centre toward the target (at the current
     * height) and of the radius toward the target radius, the quadrants follow, and a
     * converged step ends the phase.
     */
    method UpdateSafeZoneProperties(dt: real)
      requires Valid()
      modifies this`location, this`radius, this`shrinkTimer, this`shouldShrink, this`currentIteration, quadrants
      ensures ZoneUpdated(dt)
    {
      var flat := FlatTarget(targetLocation, location);
      var newRadius := InterpRadius(radius, targetRadius, dt, ShrinkSpeed);
      var newLocation := StepToward(location, flat, MoveFraction(dt, ShrinkSpeed));
      MoveSafeZone(newLocation);
      radius := newRadius;
      UpdateQuadrants(newRadius, newLocation);
      if NearlyEqualVec(newLocation, flat, 2.0) && NearlyEqual(newRadius, targetRadius, 1.0) {
        if hasAuthority {
          shouldShrink := false;
        }
        currentIteration := currentIteration + 1;
      }
    }

    /** Tick: while shrinking, one update with the frame's delta time. */
    method Tick(dt: real)
      requires Valid()
      modifies this`location, this`radius, this`shrinkTimer, this`shouldShrink, this`currentIteration, quadrants
      ensures !old(shouldShrink) ==> unchanged(this)
      ensures !old(shouldShrink) ==> forall k :: 0 <= k < |quadrants| && quadrants[k] != null ==> unchanged(quadrants[k])
      ensures old(shouldShrink) ==>
                radius == InterpRadius(old(radius), targetRadius, dt, ShrinkSpeed)
                && location == StepToward(old(location), FlatTarget(targetLocation, old(location)), MoveFraction(dt, ShrinkSpeed))
                && currentIteration - old(currentIteration) in {0, 1}
      ensures old(shouldShrink) ==> ZoneUpdated(dt)
    {
      if shouldShrink {
        UpdateSafeZoneProperties(dt);
      }
    }
  }
}
