/** Interned underlyings and contracts: compact ids handed out in insertion order. */
module Registry {
  import opened Types
  import opened Words

  type Name = seq<Byte>

  const OPTION_KIND: Byte := 2

  /** Kind and right as the codes the source stores. */
  datatype Spec = Spec(underlying: int, kind: Byte, right: Byte, expiry: int, strike: int, lot: int, tick: int)

  datatype Key = Key(underlying: int, kind: Byte, expiry: int, strike: int, right: Byte)

  /** Lot and tick size are not part of a contract's identity, nor is the right of a non-option. */
  function KeyOf(s: Spec): Key {
    Key(s.underlying, s.kind, s.expiry, s.strike, if s.kind == OPTION_KIND then s.right else 0)
  }

  datatype Reg = Reg(names: seq<Name>, specs: seq<Spec>)

  const FRESH := Reg([], [])

  function IndexOf<T(==)>(xs: seq<T>, x: T): (r: Option<nat>)
    ensures r.Some? ==> r.value < |xs| && xs[r.value] == x
    ensures r.None? ==> x !in xs
  {
    if xs == [] then None
    else if xs[|xs| - 1] == x then Some(|xs| - 1)
    else
      assert xs == xs[..|xs| - 1] + [xs[|xs| - 1]];
      IndexOf(xs[..|xs| - 1], x)
  }

  function Keys(specs: seq<Spec>): (ks: seq<Key>)
    ensures |ks| == |specs| && forall i :: 0 <= i < |specs| ==> ks[i] == KeyOf(specs[i])
  {
    seq(|specs|, i requires 0 <= i < |specs| => KeyOf(specs[i]))
  }

  /** The registry and the underlying's id after interning a name. */
  function Interned(reg: Reg, name: Name): (Reg, nat) {
    match IndexOf(reg.names, name)
    case Some(i) => (reg, i)
    case None => (reg.(names := reg.names + [name]), |reg.names|)
  }

  /** The registry and the contract's id after adding it, or finding it already there. */
  function Added(reg: Reg, s: Spec): (Reg, nat) {
    match IndexOf(Keys(reg.specs), KeyOf(s))
    case Some(i) => (reg, i)
    case None => (reg.(specs := reg.specs + [s]), |reg.specs|)
  }

  ghost predicate NoRepeats<T(!new)>(xs: seq<T>) {
    forall i, j :: 0 <= i < j < |xs| ==> xs[i] != xs[j]
  }

  /** No name and no identity is registered twice, and every contract's underlying is known. */
  ghost predicate Coherent(reg: Reg) {
    && NoRepeats(reg.names) && NoRepeats(Keys(reg.specs))
    && forall i :: 0 <= i < |reg.specs| ==> 0 <= reg.specs[i].underlying < |reg.names|
  }

  /** Ids issued so far keep their meaning. */
  predicate Grows(reg: Reg, reg': Reg) {
    reg.names <= reg'.names && reg.specs <= reg'.specs
  }

  lemma InternedKeeps(reg: Reg, name: Name)
    requires Coherent(reg)
    ensures var (r, id) := Interned(reg, name);
            Coherent(r) && Grows(reg, r) && r.specs == reg.specs && id < |r.names| && r.names[id] == name
  {
  }

  lemma AddedKeeps(reg: Reg, s: Spec)
    requires Coherent(reg) && 0 <= s.underlying < |reg.names|
    ensures var (r, id) := Added(reg, s);
            && Coherent(r) && Grows(reg, r) && r.names == reg.names && id < |r.specs| && KeyOf(r.specs[id]) == KeyOf(s)
            && (KeyOf(s) !in Keys(reg.specs) ==> r.specs[id] == s && id == |reg.specs|)
  {
    var (r, id) := Added(reg, s);
    if KeyOf(s) !in Keys(reg.specs) {
      assert Keys(r.specs) == Keys(reg.specs) + [KeyOf(s)];
      assert forall i :: 0 <= i < |reg.specs| ==> Keys(reg.specs)[i] in Keys(reg.specs);
    }
  }

  /** Equal ids mean equal identities, and the other way round. */
  lemma IdsAreIdentities(reg: Reg, i: nat, j: nat)
    requires Coherent(reg) && i < |reg.specs| && j < |reg.specs|
    ensures KeyOf(reg.specs[i]) == KeyOf(reg.specs[j]) <==> i == j
  {
    assert Keys(reg.specs)[i] == KeyOf(reg.specs[i]) && Keys(reg.specs)[j] == KeyOf(reg.specs[j]);
  }

  class InstrumentRegistry {
    var specs: seq<Spec>
    var byKey: map<Key, nat>
    var underlyings: seq<Name>
    var underlyingIds: map<Name, nat>

    ghost function Contents(): Reg
      reads this
    {
      Reg(underlyings, specs)
    }

    /** The two maps are exactly the positions of the two lists. */
    ghost predicate Valid()
      reads this
    {
      && (forall n :: n in underlyingIds <==> n in underlyings)
      && (forall n :: n in underlyingIds ==> IndexOf(underlyings, n) == Some(underlyingIds[n]))
      && (forall k :: k in byKey <==> k in Keys(specs))
      && (forall k :: k in byKey ==> IndexOf(Keys(specs), k) == Some(byKey[k]))
    }

    constructor ()
      ensures Valid() && Contents() == FRESH
    {
      specs, byKey, underlyings, underlyingIds := [], map[], [], map[];
    }

    method InternUnderlying(name: Name) returns (id: nat)
      requires Valid()
      modifies this`underlyings, this`underlyingIds
      ensures Valid() && (Contents(), id) == Interned(old(Contents()), name)
    {
      if name in underlyingIds { return underlyingIds[name]; }
      id := |underlyings|;
      forall n ensures IndexOf(underlyings + [name], n) == if n == name then Some(id) else IndexOf(underlyings, n) {
        LastIndex(underlyings, name, n);
      }
      underlyings := underlyings + [name];
      underlyingIds := underlyingIds[name := id];
    }

    method Add(spec: Spec) returns (id: nat)
      requires Valid()
      modifies this`specs, this`byKey
      ensures Valid() && (Contents(), id) == Added(old(Contents()), spec)
    {
      var k := KeyOf(spec);
      if k in byKey { return byKey[k]; }
      id := |specs|;
      forall x ensures IndexOf(Keys(specs) + [k], x) == if x == k then Some(id) else IndexOf(Keys(specs), x) {
        LastIndex(Keys(specs), k, x);
      }
      assert Keys(specs + [spec]) == Keys(specs) + [k];
      specs := specs + [spec];
      byKey := byKey[k := id];
    }

    /** An option by identity. */
    method FindOption(underlying: int, expiry: int, strike: int, right: Byte) returns (id: Option<nat>)
      requires Valid()
      ensures id == IndexOf(Keys(specs), Key(underlying, OPTION_KIND, expiry, strike, right))
    {
      var k := Key(underlying, OPTION_KIND, expiry, strike, right);
      id := if k in byKey then Some(byKey[k]) else None;
    }
  }

  lemma LastIndex<T(!new)>(xs: seq<T>, last: T, x: T)
    ensures IndexOf(xs + [last], x) == if x == last then Some(|xs|) else IndexOf(xs, x)
  {
    assert (xs + [last])[..|xs|] == xs;
  }
}
