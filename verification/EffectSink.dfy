/** `src/cemaf/persistence/idempotency.py`: an effect is stored once per key, the first payload wins. */
module EffectSink {

  datatype Receipt = Created | Replayed | Conflict

  /** What `publish` does to the stored effects and what it answers; `Conflict` is the raised error. */
  function Publish<P(==)>(effects: map<string, P>, key: string, payload: P): (map<string, P>, Receipt) {
    if key !in effects then (effects[key := payload], Created)
    else if effects[key] == payload then (effects, Replayed)
    else (effects, Conflict)
  }

  /** Whatever was published before, a later publish neither removes nor rewrites an effect. */
  lemma PublishKeepsEffects<P>(effects: map<string, P>, key: string, payload: P, other: string)
    requires other in effects
    ensures other in Publish(effects, key, payload).0
    ensures Publish(effects, key, payload).0[other] == effects[other]
  {
  }

  class InMemoryIdempotentEffectSink<P(==)> {
    var effects: map<string, P>

    constructor ()
      ensures effects == map[]
    {
      effects := map[];
    }

    method PublishEffect(key: string, payload: P) returns (receipt: Receipt)
      modifies this
      ensures (effects, receipt) == Publish(old(effects), key, payload)
    {
      if key in effects {
        if effects[key] != payload { return Conflict; }
        return Replayed;
      }
      effects := effects[key := payload];
      return Created;
    }
  }
}
