/** A user-defined circuit in a Logicly file (CustomCircuit): its input
    slots hold switches and its output slots light bulbs, and evaluating it
    reads each output's value off the input in the same position. The
    value a switch evaluates to is a parameter. */
module Circuits {
  import opened Common

  datatype Switch = Switch(id: nat)
  datatype LightBulb = LightBulb(id: nat)

  /** UndeterminedStateException: an output has no connected input. */
  datatype Undetermined = Undetermined

  class CustomCircuit {
    const uuid: nat
    const name: string
    const inputs: array<Option<Switch>>
    const outputs: array<Option<LightBulb>>

    /** The slot arrays are sized to the given switches and bulbs (the
        superclass allocates them, every slot empty) and the switches and
        bulbs are copied in. */
    constructor (uuid: nat, name: string, switches: seq<Option<Switch>>, lightBulbs: seq<Option<LightBulb>>)
      ensures this.uuid == uuid && this.name == name
      ensures fresh(inputs) && fresh(outputs)
      ensures inputs[..] == switches && outputs[..] == lightBulbs
    {
      this.uuid := uuid;
      this.name := name;
      var ins := new Option<Switch>[|switches|](_ => None);
      var outs := new Option<LightBulb>[|lightBulbs|](_ => None);
      forall i | 0 <= i < |switches| {
        ins[i] := switches[i];
      }
      forall i | 0 <= i < |lightBulbs| {
        outs[i] := lightBulbs[i];
      }
      inputs := ins;
      outputs := outs;
    }

    /** Every output position has a connected input. */
    predicate Determined()
      reads this, inputs
      requires outputs.Length <= inputs.Length
    {
      forall i :: 0 <= i < outputs.Length ==> inputs[i].Some?
    }

    /** evaluate: one value per output, the value of the switch at the same
        input position; fails when one of those inputs is unconnected. The
        source indexes the inputs by output position, so it needs at least
        as many inputs as outputs. */
    method Evaluate(valueOf: Switch -> bool) returns (r: Result<array<bool>, Undetermined>)
      requires outputs.Length <= inputs.Length
      ensures r.Success? <==> Determined()
      ensures r.Success? ==> fresh(r.value) && r.value.Length == outputs.Length
                             && forall i :: 0 <= i < outputs.Length ==> r.value[i] == valueOf(inputs[i].value)
    {
      var vals := new bool[outputs.Length];
      for i := 0 to outputs.Length
        invariant forall j :: 0 <= j < i ==> inputs[j].Some? && vals[j] == valueOf(inputs[j].value)
      {
        if inputs[i].None? {
          return Failure(Undetermined);
        }
        vals[i] := valueOf(inputs[i].value);
      }
      return Success(vals);
    }
  }
}
