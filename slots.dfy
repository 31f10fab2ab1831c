/**
 * The named memory slots of both calculators, a `HashMap<String, f64>` in the
 * source, as a map from slot name to value.
 */
module Slots {

  /** A token naming a memory slot: it starts with `mem`. */
  predicate StartsWithMem(token: string)
  {
    |token| >= 3 && token[..3] == "mem"
  }

  /** A slot name that a read token `memX` can carry: it does not end in `+` or `-`, which would make a write. */
  predicate PlainName(name: string)
  {
    name == [] || (name[|name| - 1] != '+' && name[|name| - 1] != '-')
  }

  /** The value a read sees: the stored value, or 0 for a slot never written. */
  function Lookup(slots: map<string, real>, name: string): real
  {
    if name in slots then slots[name] else 0.0
  }

  /**
   * The slots after adding `v` to slot `name` through the entry API: a vacant
   * slot is created holding `v`, an occupied one is incremented by `v`.
   */
  function Accumulated(slots: map<string, real>, name: string, v: real): (r: map<string, real>)
    ensures r.Keys == slots.Keys + {name}
    ensures r[name] == Lookup(slots, name) + v
    ensures forall other :: other in slots && other != name ==> r[other] == slots[other]
  {
    if name in slots then slots[name := slots[name] + v] else slots[name := v]
  }

  /** Read after add: the added slot moved by `v` from its old reading, every other reading is unchanged. */
  lemma LookupAccumulated(slots: map<string, real>, name: string, v: real, other: string)
    ensures Lookup(Accumulated(slots, name, v), other)
      == if other == name then Lookup(slots, name) + v else Lookup(slots, other)
  {
  }
}
