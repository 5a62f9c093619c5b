/**
 * The damage execution calculation: the gameplay effect that carries damage combines an
 * optionally captured Damage magnitude with the "Data.Damage" set-by-caller magnitude
 * and, when the sum is positive, emits one additive modifier on the Damage attribute.
 */
module DamageExecution {
  import opened Wrappers
  import opened Geometry

  /** The one attribute the calculation captures and writes. */
  datatype Attribute = Damage

  /** The one modifier operation the calculation emits. */
  datatype ModOp = Additive

  datatype OutputModifier = OutputModifier(attribute: Attribute, op: ModOp, magnitude: real)

  /**
   * What the calculation reads from the owning effect spec: the captured Damage
   * magnitude (None when the capture attempt fails) and the set-by-caller magnitudes
   * by tag name.
   */
  datatype ExecutionInput = ExecutionInput(capturedDamage: Option<real>, setByCaller: map<string, real>)

  /** The set-by-caller tag the out-of-zone damage timer assigns. */
  const DamageTag: string := "Data.Damage"

  /** The default asked for when the tag is missing. */
  const MissingMagnitude: real := -1.0

  /** GetSetByCallerMagnitude: the stored magnitude, or the given default. */
  function SetByCallerMagnitude(m: map<string, real>, tag: string, default: real): (v: real)
    ensures tag in m ==> v == m[tag]
    ensures tag !in m ==> v == default
  {
    if tag in m then m[tag] else default
  }

  /** The value the failed capture leaves in place: the initial 0. */
  function CapturedOrZero(input: ExecutionInput): real
  {
    if input.capturedDamage.Some? then input.capturedDamage.value else 0.0
  }

  /** The set-by-caller part of the sum: the magnitude clamped below at 0. */
  function SetByCallerPart(input: ExecutionInput): (p: real)
    ensures p >= 0.0
    ensures DamageTag !in input.setByCaller ==> p == 0.0
    ensures DamageTag in input.setByCaller && input.setByCaller[DamageTag] >= 0.0 ==> p == input.setByCaller[DamageTag]
  {
    Max(SetByCallerMagnitude(input.setByCaller, DamageTag, MissingMagnitude), 0.0)
  }

  /** The damage the calculation arrives at. */
  function TotalDamage(input: ExecutionInput): (d: real)
    ensures d >= CapturedOrZero(input)
    ensures input.capturedDamage.None? ==> d >= 0.0
  {
    CapturedOrZero(input) + SetByCallerPart(input)
  }

  /**
   * Execute_Implementation: the output modifiers it adds. At most one, on the Damage
   * attribute, additive, with a positive magnitude; one exactly when the total is positive.
   */
  function Execute(input: ExecutionInput): (out: seq<OutputModifier>)
    ensures |out| <= 1
    ensures |out| == 1 <==> CapturedOrZero(input) + SetByCallerPart(input) > 0.0
    ensures forall k :: 0 <= k < |out| ==>
              out[k].attribute == Damage && out[k].op == Additive
              && out[k].magnitude == CapturedOrZero(input) + SetByCallerPart(input) > 0.0
  {
    var damage := TotalDamage(input);
    if damage > 0.0 then [OutputModifier(Damage, Additive, damage)] else []
  }

  /** Without the tag only the captured magnitude counts: the default -1 adds nothing. */
  lemma MissingTagAddsNothing(input: ExecutionInput)
    requires DamageTag !in input.setByCaller
    ensures Execute(input) == if CapturedOrZero(input) > 0.0 then [OutputModifier(Damage, Additive, CapturedOrZero(input))] else []
  {
  }

  /** A negative set-by-caller magnitude has the same effect as none at all. */
  lemma NegativeSetByCallerIgnored(captured: Option<real>, m: map<string, real>, v: real)
    requires v < 0.0
    ensures Execute(ExecutionInput(captured, m[DamageTag := v])) == Execute(ExecutionInput(captured, m - {DamageTag}))
  {
    assert SetByCallerPart(ExecutionInput(captured, m[DamageTag := v])) == 0.0;
    assert SetByCallerPart(ExecutionInput(captured, m - {DamageTag})) == 0.0;
  }

  /** A larger set-by-caller magnitude never emits less damage. */
  lemma MoreSetByCallerNoLess(captured: Option<real>, m: map<string, real>, v: real, w: real)
    requires v <= w
    ensures var a := Execute(ExecutionInput(captured, m[DamageTag := v]));
            var b := Execute(ExecutionInput(captured, m[DamageTag := w]));
            |a| <= |b| && (|a| == 1 ==> a[0].magnitude <= b[0].magnitude)
  {
    var a := ExecutionInput(captured, m[DamageTag := v]);
    var b := ExecutionInput(captured, m[DamageTag := w]);
    assert SetByCallerPart(a) <= SetByCallerPart(b);
  }

  /**
   * The spec the out-of-zone timer builds: whatever the capture of Damage yields for it,
   * and the tick's amount on the damage tag (the timer assigns 5).
   */
  function OutOfZoneTick(captured: Option<real>, amount: real): ExecutionInput
  {
    ExecutionInput(captured, map[DamageTag := amount])
  }

  /**
   * Each out-of-zone tick with a non-negative amount emits the captured magnitude (0 when
   * the capture fails) plus the amount as damage when that sum is positive, and nothing
   * otherwise; a negative amount counts as 0. Without a captured magnitude, or with 0,
   * the tick deals exactly its amount.
   */
  lemma OutOfZoneTickDamage(captured: Option<real>, amount: real)
    ensures var c := if captured.Some? then captured.value else 0.0;
            var total := c + Max(amount, 0.0);
            Execute(OutOfZoneTick(captured, amount))
              == if total > 0.0 then [OutputModifier(Damage, Additive, total)] else []
    ensures captured.None? || captured == Some(0.0) ==>
              Execute(OutOfZoneTick(captured, amount))
                == if amount > 0.0 then [OutputModifier(Damage, Additive, amount)] else []
  {
    assert SetByCallerPart(OutOfZoneTick(captured, amount)) == Max(amount, 0.0);
  }
}
