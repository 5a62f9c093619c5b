# SafeZone in Dafny

A model of the server-side gameplay logic of the SafeZone Unreal Engine project.

A spherical safe zone shrinks in phases. At the start of each phase it picks the least occupied of its quadrants: four spheres placed 90 degrees apart, half the zone radius away from its centre. It then aims at a random point of that quadrant and moves and shrinks toward it tick by tick. The quadrants tell the game mode which player is in which quadrant. A player that leaves every quadrant and is not overlapped by the zone receives the `State.OutsideSafeZone` gameplay tag. While the tag is present the player character's repeating damage timer applies a damage effect. The damage execution calculation turns that effect into an additive modifier on the Damage attribute. A character whose health reaches 0 dies, gives back its startup abilities and, three seconds later, is counted out by the game mode. The game mode ends the game once the count reaches 0.

Files:

- `wrappers.dfy`: `Option`.
- `geometry.dfy` (module `Geometry`): vectors, the quadrant offsets, the per-tick movement step, the radius interpolation and the convergence tests.
- `occupancy.dfy` (module `Occupancy`): the running-minimum search as a specification, removal from a player list, and the angle slots of the quadrants.
- `abilities.dfy` (module `Abilities`): the list of granted abilities, and the two-pass removal.
- `damage_execution.dfy` (module `DamageExecution`): the damage combination rule.
- `actors.dfy` (module `SafeZoneActors`): the classes `SafeZoneActor`, `QuadrantSystemActor`, `SafeZoneGameMode`, `GamePlayerCharacter` and `SafeZoneGameState`. They share one module because the C++ classes call each other in a cycle.

Engine services are explicit state:

- a timer is a field holding what is pending, and a `Fire…` method runs its callback;
- the zone's overlap set is a field the world sets;
- spawn failures and the effect handle the ability system returns are parameters;
- the random point is any point of the box.

Behaviour of the code worth knowing, all modelled as written:

- The random target of a shrink phase is drawn from the axis-aligned box around the chosen quadrant, not from its sphere. `Geometry.BoxTargetCanLeaveZone` shows that a corner of that box lies outside the quadrant's sphere and outside the zone itself.
- An exit removes the player from the quadrant's list at once; the game mode's re-check runs 1.5 seconds later. Earlier pending re-checks are not cancelled.
- `CurrentIteration` has no cap: every converged update raises it.
- `MoveSafeZone` re-arms the 30-second shrink timer on every server tick of the movement.
- Neither `EndGame` nor `Die` is latched: each call past its guard runs again.

## Model

| member | source | states |
|---|---|---|
| Geometry.QuadrantDirection | Source/SafeZone/Private/SafeZoneActor.cpp:98-99 | the offset direction of a quadrant is a horizontal unit vector along one axis (the same formula is used again at lines 121-122) |
| Geometry.QuadrantDirectionTurns | Source/SafeZone/Private/SafeZoneActor.cpp:98-99 | (cos 90i, sin 90i, 0): index 0 is +X and each next index is a quarter turn counter-clockwise, so the directions are +X, +Y, -X, -Y, repeating every 4 |
| Geometry.QuadrantCenter | Source/SafeZone/Private/SafeZoneActor.cpp:97-101 | a quadrant centre lies exactly the quadrant radius from the zone centre, at the zone's height |
| Geometry.QuadrantSphereInsideZone | Source/SafeZone/Private/SafeZoneActor.cpp:91-106 | every point of a quadrant sphere of radius R/2 centred R/2 from the zone centre lies inside the zone of radius R |
| Geometry.BoxTargetCanLeaveZone | Source/SafeZone/Private/QuadrantSystemActor.cpp:45-53 | some point of the box the random target is drawn from lies outside the quadrant's sphere and outside the whole zone |
| Geometry.MoveFraction | Source/SafeZone/Private/SafeZoneActor.cpp:150 | the per-tick fraction min(dt * speed, 1) is at most 1, and not negative for a non-negative dt and speed |
| Geometry.StepToward | Source/SafeZone/Private/SafeZoneActor.cpp:149-151 | below the safe-normal tolerance the centre stays put; otherwise it covers exactly the fraction of the distance and the rest remains; the height is kept when the target has it |
| Geometry.StepNeverOvershoots | Source/SafeZone/Private/SafeZoneActor.cpp:149-151 | one step never moves further than the remaining distance, and never leaves more distance than before |
| Geometry.FullStepReachesTarget | Source/SafeZone/Private/SafeZoneActor.cpp:150-151 | when dt * speed reaches 1 the step lands exactly on the target |
| Geometry.InterpRadius | Source/SafeZone/Private/SafeZoneActor.cpp:147 | the new radius lies between the current and the target radius and is never further from the target; a non-positive speed jumps to the target |
| Occupancy.FirstMinimum | Source/SafeZone/Private/SafeZoneActor.cpp:182-202 | the running-minimum scan finds nothing exactly when every quadrant is null or holds MAX_int32 players; otherwise it settles on the first slot with the fewest players |
| Occupancy.FirstMinimumUnique | Source/SafeZone/Private/SafeZoneActor.cpp:182-202 | at most one slot is the first minimum, so the scan's answer is determined |
| Occupancy.FirstMinimumAvoidsGrowth | Source/SafeZone/Private/SafeZoneActor.cpp:193-197 | one more player in any other quadrant does not change which quadrant the scan chooses |
| Occupancy.RemoveAll | Source/SafeZone/Private/QuadrantSystemActor.cpp:74 | removal drops every occurrence of the player and keeps every other entry with its multiplicity |
| Occupancy.RemoveAbsent | Source/SafeZone/Private/QuadrantSystemActor.cpp:74 | removing a player who is not listed leaves the list as it was |
| Occupancy.RemoveAfterAppend | Source/SafeZone/Private/QuadrantSystemActor.cpp:41-74 | an exit (line 74) undoes the enter (line 41) of the same player: removal after appending equals removal before it |
| Occupancy.SpawnedSteps | Source/SafeZone/Private/SafeZoneActor.cpp:97-108 | at most n quadrants survive n spawn attempts |
| Occupancy.SpawnedStepsExactly | Source/SafeZone/Private/SafeZoneActor.cpp:97-108 | the surviving quadrants are exactly the steps that did not fail, each once, in increasing step order |
| Occupancy.NonNullRank | Source/SafeZone/Private/SafeZoneActor.cpp:116-121 | the angle index of a slot is at most its position |
| Occupancy.NonNullRankWithoutNulls | Source/SafeZone/Private/SafeZoneActor.cpp:116-121 | without null slots the angle index is the position itself |
| Occupancy.NonNullRankDistinct | Source/SafeZone/Private/SafeZoneActor.cpp:116-121 | two non-null quadrants never share an angle index |
| Abilities.Grants | Source/SafeZone/Private/GamePlayerCharacter.cpp:248-252 | granting appends one spec per startup class, in order, with this character as source and consecutive handles |
| Abilities.HandlesFrom | Source/SafeZone/Private/GamePlayerCharacter.cpp:250-251 | the handles asked to activate are the consecutive handles just generated |
| Abilities.GrantsKeepHandlesUnique | Source/SafeZone/Private/GamePlayerCharacter.cpp:248-252 | after granting, all handles are still distinct and below the handle counter |
| Abilities.HandlesToRemove | Source/SafeZone/Private/GamePlayerCharacter.cpp:129-136 | the first pass collects the handle of every spec from this character whose class is listed, and no other handle |
| Abilities.ClearAbility | Source/SafeZone/Private/GamePlayerCharacter.cpp:141 | clearing a handle removes the specs carrying it and keeps every other spec |
| Abilities.ClearAllDrops | Source/SafeZone/Private/GamePlayerCharacter.cpp:139-142 | clearing the collected handles one at a time drops exactly the specs carrying one of them |
| Abilities.KeepUnowned | Source/SafeZone/Private/GamePlayerCharacter.cpp:121-145 | what the removal should leave: every spec not granted by this character for a listed class, and only those |
| Abilities.TwoPassRemovesOwned | Source/SafeZone/Private/GamePlayerCharacter.cpp:128-142 | with unique handles, the two passes leave exactly that list |
| Abilities.KeepUnownedKeepsHandles | Source/SafeZone/Private/GamePlayerCharacter.cpp:121-145 | the specs left over still carry unique handles below the counter |
| Abilities.RemoveUndoesGrant | Source/SafeZone/Private/GamePlayerCharacter.cpp:121-145 | removing after a grant (lines 240-255) leaves exactly what removal would have left before the grant |
| DamageExecution.SetByCallerMagnitude | Source/SafeZone/Private/DamageGE_ExecutionCalculation.cpp:58 | the stored set-by-caller magnitude, or the default when the tag is missing |
| DamageExecution.SetByCallerPart | Source/SafeZone/Private/DamageGE_ExecutionCalculation.cpp:58 | the set-by-caller contribution is never negative, is 0 without the tag, and equals a non-negative stored value |
| DamageExecution.TotalDamage | Source/SafeZone/Private/DamageGE_ExecutionCalculation.cpp:54-58 | the total is at least the captured part, and not negative when the capture fails |
| DamageExecution.Execute | Source/SafeZone/Private/DamageGE_ExecutionCalculation.cpp:54-64 | at most one modifier, emitted exactly when the total is positive, additive on Damage with exactly that total |
| DamageExecution.MissingTagAddsNothing | Source/SafeZone/Private/DamageGE_ExecutionCalculation.cpp:58 | without the tag only the captured magnitude counts |
| DamageExecution.NegativeSetByCallerIgnored | Source/SafeZone/Private/DamageGE_ExecutionCalculation.cpp:58 | a negative set-by-caller magnitude has the same effect as none |
| DamageExecution.MoreSetByCallerNoLess | Source/SafeZone/Private/DamageGE_ExecutionCalculation.cpp:58-64 | a larger set-by-caller magnitude never emits less damage |
| DamageExecution.OutOfZoneTickDamage | Source/SafeZone/Private/GamePlayerCharacter.cpp:335-342 | the spec each out-of-zone tick applies deals the captured Damage magnitude (0 when the capture fails) plus its set-by-caller amount, clamped at 0, when that sum is positive (the sum of DamageGE_ExecutionCalculation.cpp:54-57), and nothing otherwise; with nothing or 0 captured it deals exactly its amount |
| SafeZoneActors.Present | Source/SafeZone/Private/GamePlayerCharacter.cpp:291-298 | the applied effects are exactly the listed ones with a valid spec: each output comes from the list and every valid entry is applied |
| SafeZoneActors.PresentAppend | Source/SafeZone/Private/GamePlayerCharacter.cpp:291-298 | effects are applied in list order: the entries of a list made of two parts are applied as those of the first part, then those of the second |
| SafeZoneActors.SafeZoneGameState.constructor | Source/SafeZone/Public/SafeZoneGameState.h:18-19 | the player count starts at 0 |
| SafeZoneActors.GamePlayerCharacter.constructor | Source/SafeZone/Private/GamePlayerCharacter.cpp:19-58 | the component exists only on the server; nothing is granted, applied, tagged or pending yet |
| SafeZoneActors.GamePlayerCharacter.BeginPlay | Source/SafeZone/Private/GamePlayerCharacter.cpp:60-70 | the health and tag handlers are bound exactly on the server with a component |
| SafeZoneActors.GamePlayerCharacter.GetCharacterHealth | Source/SafeZone/Private/GamePlayerCharacter.cpp:210-218 | the Health attribute, or 0 without an attribute set |
| SafeZoneActors.GamePlayerCharacter.IsCharacterAlive | Source/SafeZone/Private/GamePlayerCharacter.cpp:116-119 | alive exactly when there is an attribute set and the health is positive |
| SafeZoneActors.GamePlayerCharacter.HealthChanged | Source/SafeZone/Private/GamePlayerCharacter.cpp:303-316 | called with the value the attribute already holds; with authority, a value at or below 0 runs Die and leaves the knockdown flag alone; otherwise the flag is raised exactly for a server value at or below 20, so a knockdown happens once and never together with death, and nothing Die touches changes |
| SafeZoneActors.GamePlayerCharacter.SetHealthValue | Source/SafeZone/Private/GamePlayerCharacter.cpp:64-68 | the Health attribute holds the new value before the handler bound in BeginPlay runs; a value at or below 0 leaves the character not alive, which is the condition the out-of-zone tag handler checks before it arms the damage timer, and on a bound server character it is dead |
| SafeZoneActors.GamePlayerCharacter.Knockdown | Source/SafeZone/Private/GamePlayerCharacter.cpp:364-368 | the knocked-down flag is set |
| SafeZoneActors.GamePlayerCharacter.Die | Source/SafeZone/Private/GamePlayerCharacter.cpp:147-183 | without authority nothing changes; with it the character is dead, its startup abilities are taken back, the damage timer is stopped, a valid effect handle is removed and invalidated, abilities are cancelled and one FinishDying is pending |
| SafeZoneActors.GamePlayerCharacter.FinishDying | Source/SafeZone/Private/GamePlayerCharacter.cpp:186-208 | with authority the game mode counts the player out, the owning controller loses its pawn, and the character is destroyed; without authority nothing changes |
| SafeZoneActors.GamePlayerCharacter.FireFinishDyingTimer | Source/SafeZone/Private/GamePlayerCharacter.cpp:181-182 | a pending FinishDying call leaves the pending count; on a live actor it performs the count-out and the unpossess, while an actor already destroyed stays destroyed and its game mode and game state are untouched, so a player is counted out at most once |
| SafeZoneActors.GamePlayerCharacter.AddCharacterAbilities | Source/SafeZone/Private/GamePlayerCharacter.cpp:240-255 | on the server with a component and only once: every startup ability is granted and asked to activate, handles stay unique, the flag is set |
| SafeZoneActors.GamePlayerCharacter.GiveCharacterAbilities | Source/SafeZone/Private/GamePlayerCharacter.cpp:248-252 | the loop grants one spec per startup class in list order, with this character as source and consecutive handles, and asks to activate each handle it got back |
| SafeZoneActors.GamePlayerCharacter.RemoveCharacterAbilities | Source/SafeZone/Private/GamePlayerCharacter.cpp:121-145 | on the server after a grant: exactly the specs this character granted for a listed class leave, and the flag drops |
| SafeZoneActors.GamePlayerCharacter.CollectAbilitiesToRemove | Source/SafeZone/Private/GamePlayerCharacter.cpp:128-136 | the first loop collects exactly the handles of the specs this character granted for a listed class, in list order |
| SafeZoneActors.GamePlayerCharacter.AddStartupEffects | Source/SafeZone/Private/GamePlayerCharacter.cpp:281-301 | on the server with a component and only once: every effect with a valid spec is applied in order, and the flag is set |
| SafeZoneActors.GamePlayerCharacter.OutsideSafeZoneTagChanged | Source/SafeZone/Private/GamePlayerCharacter.cpp:318-362 | for a live character on the server, the tag (re)arms the single repeating damage timer; its absence stops an active timer and removes a valid effect |
| SafeZoneActors.GamePlayerCharacter.AddOutsideZoneTag | Source/SafeZone/Private/SafeZoneGameMode.cpp:136 | called only while the tag is absent, since only the change from none to one fires the tag event; the tag is then present and the handler bound at GamePlayerCharacter.cpp line 68 reacted |
| SafeZoneActors.GamePlayerCharacter.RemoveOutsideZoneTag | Source/SafeZone/Private/SafeZoneGameMode.cpp:125 | called only while the tag is present; the tag is then gone and the handler bound at GamePlayerCharacter.cpp line 68 reacted |
| SafeZoneActors.GamePlayerCharacter.FireDamageTimer | Source/SafeZone/Private/GamePlayerCharacter.cpp:331-345 | each tick of a live character with a component applies the spec with 5 on Data.Damage and the engine's captured Damage magnitude, and keeps the returned handle; it does nothing otherwise |
| SafeZoneActors.QuadrantSystemActor.constructor | Source/SafeZone/Private/QuadrantSystemActor.cpp:5-18 | a new quadrant has radius 10 and no players |
| SafeZoneActors.QuadrantSystemActor.OnPlayerEnterQuadrant | Source/SafeZone/Private/QuadrantSystemActor.cpp:25-43 | with authority and a player character the game mode maps the player to this quadrant and takes its tag off, then the player is appended; otherwise nothing changes; no other game-mode field changes |
| SafeZoneActors.QuadrantSystemActor.OnPlayerExitQuadrant | Source/SafeZone/Private/QuadrantSystemActor.cpp:55-76 | with authority and a player character a 1.5-second re-check is scheduled and every occurrence of the player leaves the list; otherwise nothing changes; no other game-mode field changes |
| SafeZoneActors.QuadrantSystemActor.GetPlayersInQuadrant | Source/SafeZone/Private/QuadrantSystemActor.cpp:78-81 | the list itself |
| SafeZoneActors.QuadrantSystemActor.GetNumberOfPlayersInQuadrant | Source/SafeZone/Private/QuadrantSystemActor.cpp:83-86 | the length of the list, duplicates included |
| SafeZoneActors.QuadrantSystemActor.IsPlayerInside | Source/SafeZone/Private/QuadrantSystemActor.cpp:88-99 | true exactly when some listed player has the id |
| SafeZoneActors.QuadrantSystemActor.GetRandomLocationInQuadrant | Source/SafeZone/Private/QuadrantSystemActor.cpp:45-53 | a point of the box of half-width r around the sphere's centre |
| SafeZoneActors.QuadrantSystemActor.Place | Source/SafeZone/Private/SafeZoneActor.cpp:124-125 | the quadrant takes the given location and sphere radius |
| SafeZoneActors.FirstMatch | Source/SafeZone/Private/SafeZoneGameMode.cpp:152-158 | the first controller whose player state carries the id, or none when no controller does |
| SafeZoneActors.Unpossessed | Source/SafeZone/Private/GamePlayerCharacter.cpp:200-204 | after the unpossess every controller keeps its player state and class, none holds the dead character, and every other pawn stays |
| SafeZoneActors.UnpossessedPawnFor | Source/SafeZone/Private/SafeZoneGameMode.cpp:150-161 | after the unpossess the lookup by id returns null where it returned the dead character, and the same character for every other id |
| SafeZoneActors.GamePlayerControllerIndexes | Source/SafeZone/Private/SafeZoneGameMode.cpp:202-209 | at most one position per controller |
| SafeZoneActors.GamePlayerControllerIndexesExactly | Source/SafeZone/Private/SafeZoneGameMode.cpp:202-209 | EndGame reaches exactly the GamePlayerControllers, each once, in iteration order |
| SafeZoneActors.FirstQuadrantWith | Source/SafeZone/Private/SafeZoneGameMode.cpp:173-181 | the first non-null quadrant listing the player, or none when no quadrant does |
| SafeZoneActors.SafeZoneGameMode.constructor | Source/SafeZone/Private/SafeZoneGameMode.cpp:15-18 | no current quadrant, an empty map and nothing pending |
| SafeZoneActors.SafeZoneGameMode.UnPossess | Source/SafeZone/Private/GamePlayerCharacter.cpp:200-204 | the controller list becomes the unpossessed one, and the possessed characters lose exactly the dead one |
| SafeZoneActors.SafeZoneGameMode.BeginPlay | Source/SafeZone/Private/SafeZoneGameMode.cpp:20-32 | the first safe zone actor found becomes the reference; none found leaves it |
| SafeZoneActors.SafeZoneGameMode.PostLogin | Source/SafeZone/Private/SafeZoneGameMode.cpp:34-43 | the count rises by exactly 1 when there is a game state |
| SafeZoneActors.SafeZoneGameMode.Logout | Source/SafeZone/Private/SafeZoneGameMode.cpp:45-58 | the count falls by exactly 1 and EndGame runs exactly when it is then at or below 0 |
| SafeZoneActors.SafeZoneGameMode.ManagePlayerCount | Source/SafeZone/Private/SafeZoneGameMode.cpp:185-197 | the same decrement and test, on every call, with no latch |
| SafeZoneActors.SafeZoneGameMode.EndGame | Source/SafeZone/Private/SafeZoneGameMode.cpp:199-210 | every GamePlayerController, in order, is told to return to the main menu |
| SafeZoneActors.SafeZoneGameMode.GetPlayerCharacterFromID | Source/SafeZone/Private/SafeZoneGameMode.cpp:150-161 | the pawn of the first controller with the id, or null; a result is a possessed character |
| SafeZoneActors.SafeZoneGameMode.IsPlayerInSafeZone | Source/SafeZone/Private/SafeZoneGameMode.cpp:141-148 | false when the character or the zone is missing, otherwise whether the zone overlaps the character |
| SafeZoneActors.SafeZoneGameMode.IsPlayerInAnyQuadrant | Source/SafeZone/Private/SafeZoneGameMode.cpp:170-183 | true exactly when some non-null quadrant lists the player; then the first such quadrant becomes current, otherwise the current one stays |
| SafeZoneActors.SafeZoneGameMode.RemoveOutsideSafeZoneTagIfApplicable | Source/SafeZone/Private/SafeZoneGameMode.cpp:120-128 | the player's character loses the tag only if it has it, and no other character changes |
| SafeZoneActors.SafeZoneGameMode.ApplyOutsideSafeZoneTagIfApplicable | Source/SafeZone/Private/SafeZoneGameMode.cpp:130-139 | the player's character gets the tag only if it is outside the zone and lacks it, so a repeat adds nothing; no other character changes |
| SafeZoneActors.SafeZoneGameMode.UpdatePlayerQuadrant | Source/SafeZone/Private/SafeZoneGameMode.cpp:86-102 | a quadrant sets the player's entry and removes the tag; none removes the entry and considers the tag; other keys keep their entries |
| SafeZoneActors.SafeZoneGameMode.StartQuadrantUpdateDelay | Source/SafeZone/Private/SafeZoneGameMode.cpp:163-168 | one more one-shot re-check is pending, after the earlier ones |
| SafeZoneActors.SafeZoneGameMode.DelayedUpdatePlayerQuadrant | Source/SafeZone/Private/SafeZoneGameMode.cpp:104-118 | a player some quadrant lists is mapped to the first such quadrant, which becomes the current one, and loses the out-of-zone tag; otherwise its entry is dropped and it gets the tag exactly when it is outside the safe zone and lacks it; no other character changes |
| SafeZoneActors.SafeZoneGameMode.FireQuadrantCheck | Source/SafeZone/Private/SafeZoneGameMode.cpp:163-168 | a pending re-check leaves the pending list and has exactly the effect of the delayed update for its player, tag changes included; an index past the list changes nothing |
| SafeZoneActors.AsOptions | Source/SafeZone/Private/SafeZoneActor.cpp:117-119 | the quadrant array with exactly its null slots as None |
| SafeZoneActors.OccupancyOf | Source/SafeZone/Private/SafeZoneActor.cpp:187-191 | one entry per slot: None for a null slot, the length of the quadrant's list otherwise |
| SafeZoneActors.FlatTarget | Source/SafeZone/Private/SafeZoneActor.cpp:144 | the target's X and Y at the zone's current height |
| SafeZoneActors.SafeZoneActor.constructor | Source/SafeZone/Private/SafeZoneActor.cpp:6-41 | radius 2500, no shrinking, iteration 0, no quadrants |
| SafeZoneActors.SafeZoneActor.BeginPlay | Source/SafeZone/Private/SafeZoneActor.cpp:43-54 | on the server the target is the current sphere, the quadrants are spawned and the first shrink is 30 seconds away; elsewhere nothing changes |
| SafeZoneActors.SafeZoneActor.SpawnQuadrant | Source/SafeZone/Private/SafeZoneActor.cpp:102-105 | a new quadrant at the location with the given radius and no players |
| SafeZoneActors.SafeZoneActor.CreateQuadrants | Source/SafeZone/Private/SafeZoneActor.cpp:79-109 | the array is refilled with at most 4 new, distinct quadrants, one per step that spawned, each half the zone radius out along its direction and with half the zone radius |
| SafeZoneActors.SafeZoneActor.SpawnQuadrants | Source/SafeZone/Private/SafeZoneActor.cpp:95-108 | the spawn loop yields one distinct new quadrant per step that did not fail, in step order, each half the zone radius out along its direction with half the zone radius and no players |
| SafeZoneActors.SafeZoneActor.UpdateQuadrants | Source/SafeZone/Private/SafeZoneActor.cpp:111-128 | every non-null quadrant moves to the new centre plus half the new radius along the direction of its non-null rank, and takes half the new radius; the player lists stay |
| SafeZoneActors.SafeZoneActor.StartShrinkingWithDelay | Source/SafeZone/Private/SafeZoneActor.cpp:130-137 | exactly one shrink timer, with the new delay, is pending |
| SafeZoneActors.SafeZoneActor.LeastOccupied | Source/SafeZone/Private/SafeZoneActor.cpp:182-202 | null exactly when no non-null quadrant holds fewer than MAX_int32 players; otherwise the first quadrant with the fewest players |
| SafeZoneActors.SafeZoneActor.FindQuadrantWithMinimumPlayers | Source/SafeZone/Private/SafeZoneActor.cpp:182-202 | the running-minimum loop returns exactly that quadrant |
| SafeZoneActors.SafeZoneActor.ShrinkSafeZone | Source/SafeZone/Private/SafeZoneActor.cpp:205-232 | nothing without authority; on the last phase radius 0 at the same location; otherwise a point of the least occupied quadrant's box and a radius of at least MinSafeZoneRadius, or no change without such a quadrant; shrinking starts |
| SafeZoneActors.SafeZoneActor.FireShrinkTimer | Source/SafeZone/Private/SafeZoneActor.cpp:136 | a pending shrink timer is consumed and the shrink has exactly its effect: the last phase aims at radius 0, another phase at a point of the least occupied quadrant's box with at least MinSafeZoneRadius, and shrinking starts on the server; without a pending timer nothing changes |
| SafeZoneActors.SafeZoneActor.MoveSafeZone | Source/SafeZone/Private/SafeZoneActor.cpp:235-243 | the zone is placed, and on the server the next shrink is pushed 30 seconds out |
| SafeZoneActors.SafeZoneActor.Converged | Source/SafeZone/Private/SafeZoneActor.cpp:161 | the phase is over exactly when the new centre is within 2.0 of the flattened target on every axis and the new radius within 1.0 of the target radius |
| SafeZoneActors.SafeZoneActor.UpdateSafeZoneProperties | Source/SafeZone/Private/SafeZoneActor.cpp:139-179 | one step toward the target at the current height (which `Geometry.StepNeverOvershoots` bounds), the radius interpolated toward its target (bounded by `Geometry.InterpRadius`), the quadrants following; convergence raises the iteration by exactly 1 and clears shrinking on the server, otherwise both stay |
| SafeZoneActors.SafeZoneActor.Tick | Source/SafeZone/Private/SafeZoneActor.cpp:56-64 | nothing while not shrinking; otherwise exactly one update: the step toward the target, the interpolated radius, the quadrants laid out again with their players kept, the timer re-armed on the server and the phase ended on convergence, the iteration rising by 0 or 1 |

## Left out

- Spawning of actors other than quadrants, `Destroy` (the old quadrants `CreateQuadrants` destroys, the character after `FinishDying`, which is only a flag here), meshes, materials, visual scaling and camera and movement settings: engine plumbing without game logic.
- Replication, `OnRep_*`, the multicast death and knockdown animations (the death animation's only effect, setting `IsCharacterDead`, is kept), `ForceNetUpdate`, and `SafeZoneGameState.cpp`: network transport.
- `SpawnSafeZoneActor`: nothing in the modelled code calls it.
- `InitializeAttributes`, `PossessedBy`, `SetHealth`, `GetCharacterMaxHealth` and the character's own `ApplyOutsideSafeZoneTag`/`RemoveOutsideSafeZoneTag`: start-up wiring and unused helpers.
- `DeafultGameplayAbility`, `GamePlayerController` and `SafeZoneGameModeBase` carry no behaviour; the controller's `EndGameReturnToMain` is only recorded as a request.
- Floating point: positions, radii and times are `real`. `float` rounding is not modelled. `FMath::Cos`/`Sin` of multiples of 90 degrees are their exact values. `FVector::GetSafeNormal`, `FVector::Equals`, `FMath::IsNearlyEqual` and `FMath::FInterpTo` follow the engine's documented behaviour, as no engine code is part of this model. The result of `FMath::VInterpTo` is computed and then ignored by the source, so it is not modelled.
- `FMath::RandPointInBox`: modelled as an arbitrary point of the box.
- The timer manager keeps no clock: a pending timer is a field, and firing it is an explicit event. `Tick` takes the world's delta seconds as its parameter.
- Overlap detection (`IsOverlappingActor`, the begin/end overlap events) is an input: the zone's `overlapping` set and calls of the quadrant handlers.
- Ability-system internals (`GiveAbility`, `TryActivateAbility`, effect application, `CancelAllAbilities`) are recorded as lists and counters. The loose tag's reference count is a boolean. Collision and movement changes in `Die` are not modelled.
- SafeZoneActors.SafeZoneGameMode.ManagePlayerCount: requires a game state. The source dereferences the game state even when the cast failed, and the model does not model that crash.
- SafeZoneActors.SafeZoneGameMode.IsPlayerInAnyQuadrant: requires a safe zone reference. The source dereferences it without a check. `DelayedUpdatePlayerQuadrant` and `FireQuadrantCheck` inherit this requirement.
- SafeZoneActors.SafeZoneGameMode.RemoveOutsideSafeZoneTagIfApplicable: requires every possessed character to have its ability system component, which the source dereferences unchecked; on the server, where this code runs, it always exists. `ApplyOutsideSafeZoneTagIfApplicable`, `UpdatePlayerQuadrant`, `DelayedUpdatePlayerQuadrant`, `FireQuadrantCheck` and `QuadrantSystemActor.OnPlayerEnterQuadrant` inherit this requirement.
- SafeZoneActors.SafeZoneGameMode.PostLogin: `PlayerCount` is an `int32`; its wrap-around is not modelled (it would need two billion logins).
- SafeZoneActors.GamePlayerCharacter.FireDamageTimer: the engine timer's weak pointer is modelled by the `destroyed` flag.
- Abilities.ClearAbility: the remaining specs keep their order. The engine removes a spec with RemoveAtSwap, which can reorder the rest; no modelled behaviour depends on that order.
- SafeZoneActors.GamePlayerCharacter.AddOutsideZoneTag: requires the tag to be absent, and `RemoveOutsideZoneTag` requires it present. The loose tag's count above 1, which fires no tag event, is not modelled; the game mode's callers only add an absent tag and remove a present one.
- SafeZoneActors.GamePlayerCharacter.FinishDying: the controller list lives in the game mode, so without a game mode the unpossess has no effect in the model.
- `ShrinkSpeed`, `MaxIterations` (Source/SafeZone/Public/SafeZoneActor.h:42-46) and `KnockdownHealthThreshold` (Source/SafeZone/Public/GamePlayerCharacter.h:135) are editor-exposed properties. The model fixes them at their constructor defaults of 0.5, 5 and 20; values a designer sets in the editor or a Blueprint are not modelled.
- SafeZoneActors.SafeZoneActor.UpdateQuadrants: the source divides the radius as a `float`; the model divides exactly.
- Player ids: the quadrant and the character read the id from the player state as `GetPlayerUniqueNetIdAsString`, and the game mode reads it as `GetUniqueId().ToString()`. While a character has a player state, both are the same string, the character's `playerId`.
- SafeZoneActors.GamePlayerCharacter: the model keeps `playerId` constant for the character's life. In the source, `GetPlayerUniqueNetIdAsString` (GamePlayerCharacter.cpp:384-391) returns the empty string while the character has no player state: before possession, and after the unpossess in `FinishDying`. So when the destroy after `FinishDying` ends a quadrant overlap, the source schedules the 1.5-second re-check for the empty id, and the dead player's `PlayerQuadrantMap` entry stays. `OnPlayerExitQuadrant` in the model re-checks the real id and removes that entry. The source only adds to and removes from that map and never reads it. A re-check for the empty id finds no controller with that id, so it changes no tag either.
- DamageExecution.OutOfZoneTickDamage: the captured Damage magnitude is an input (`FireDamageTimer`'s `captured`). The engine computes it from any calculation modifier on `DamageEffectClass` over the source's `Damage` meta attribute (PlayerAttributeSet.h:36) at spec creation, and neither the effect asset nor the aggregation is part of this model. A tick deals exactly 5 only when that capture yields nothing or 0.
