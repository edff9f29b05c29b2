/**
 * The mixin engine of `src/models/mixins.js` over shared, mutable memo tables.
 *
 * An object is an `Entity`: its properties and a reference to the `Map` in its
 * `preUpdateMixins` property. Spreading an object copies that reference, so
 * the input and output of a mixin share one memo, and `preUpdateMixins`
 * updates it in place. Every mixin method here is proved to do what its step
 * function in `MixinSpec` says (`RequireStep`, `FreezeStep`, `TransformStep`,
 * `ApplyMixin`, `Run`), including what it leaves in the input's memo when it
 * throws.
 */
module Mixins {
  import opened Values
  import opened MixinSpec

  /** The memo `Map`: the function name of a factory to the mixin it installed. */
  class Memo {
    var entries: Entries

    constructor ()
      ensures entries == map[]
    {
      entries := map[];
    }
  }

  /** An object with its properties and, if it has one, its memo. */
  datatype Entity = Entity(props: Props, memo: Memo?)

  /** The value of an object at this moment. */
  ghost function View(o: Entity): State
    reads o.memo
  {
    State(o.props, if o.memo == null then None else Some(o.memo.entries))
  }

  /**
   * A call on `o` that returned or threw `r` did what `st` predicts: the same
   * outcome, and the same contents left in the memo `o` carried; on success
   * the result shares that memo.
   */
  ghost predicate Realizes(r: Result<Entity, MixinError>, st: Step, o: Entity)
    reads o.memo, if r.Ok? then r.value.memo else null
  {
    && (o.memo == null <==> st.shared.None?)
    && (o.memo != null ==> st.shared == Some(o.memo.entries))
    && (r.Err? <==> st.outcome.Err?)
    && (r.Err? ==> r.error == st.outcome.error)
    && (r.Ok? ==> View(r.value) == st.outcome.value && (o.memo != null ==> r.value.memo == o.memo))
  }

  /**
   * `preUpdateMixins(o, name, cb)`: use `o`'s memo or a new one; if it lacks
   * `name`, store the built mixin under it and return `o` with the memo,
   * otherwise return `o` itself. The built mixin is passed as a value: building
   * it has no effect.
   */
  method PreUpdateMixins(o: Entity, name: string, entry: Mixin) returns (r: Entity)
    modifies o.memo
    ensures r.props == o.props && r.memo != null
    ensures o.memo != null ==> r.memo == o.memo
    ensures o.memo == null ==> fresh(r.memo)
    ensures r.memo.entries == Install(old(View(o)).memo, name, entry)
    ensures o.memo != null && name in old(o.memo.entries) ==> r == o && o.memo.entries == old(o.memo.entries)
  {
    var memo := o.memo;
    if memo == null {
      memo := new Memo();
    }
    if name !in memo.entries {
      memo.entries := memo.entries[name := entry];
      return Entity(o.props, memo);
    }
    return o;
  }

  /** `requireProperties(...propNames)(o)`. */
  method RequireProperties(names: seq<string>, o: Entity) returns (r: Result<Entity, MixinError>)
    ensures r.Ok? <==> forall n :: n in names ==> Truthy(Get(o.props, n))
    ensures r.Ok? ==> r.value == o
    ensures r.Err? ==> r.error == MissingProperties(Missing(names, o.props))
  {
    var missing := Missing(names, o.props);
    MissingExact(names, o.props);
    if |missing| > 0 {
      assert missing[0] in missing;
      return Err(MissingProperties(missing));
    }
    return Ok(o);
  }

  /** `freezeProperties(isUpdate, ...propNames)(o)`: check only in update mode, then memoize. */
  method FreezeProperties(isUpdate: bool, names: seq<string>, o: Entity) returns (r: Result<Entity, MixinError>)
    modifies o.memo
    ensures Realizes(r, FreezeStep(isUpdate, names, old(View(o))), o)
    ensures r.Ok? && o.memo == null ==> fresh(r.value.memo)
  {
    if isUpdate {
      var frozen := ReadonlyKeys(o.props, names);
      if |frozen| > 0 {
        return Err(ReadonlyProperties(frozen));
      }
    }
    var installed := PreUpdateMixins(o, FreezeName, Freeze(true, names));
    return Ok(installed);
  }

  /**
   * The shared body of `encryptProperties` and `hashPasswords`: install first,
   * then map and reduce the named properties of the input and spread the
   * patch over it.
   */
  method TransformProperties(name: string, entry: Mixin, f: Value -> Value, names: seq<string>, o: Entity)
    returns (r: Result<Entity, MixinError>)
    modifies o.memo
    ensures Realizes(r, TransformStep(name, entry, f, names, old(View(o))), o)
    ensures r.Ok? && o.memo == null ==> fresh(r.value.memo)
  {
    var mixins := PreUpdateMixins(o, name, entry);
    var patch := Reduce(Patches(f, names, o.props));
    if patch.None? {
      return Err(EmptyReduce);
    }
    return Ok(Entity(mixins.props + patch.value, mixins.memo));
  }

  /** `encryptProperties(...propNames)(o)`. */
  method EncryptProperties(encrypt: Value -> Value, names: seq<string>, o: Entity) returns (r: Result<Entity, MixinError>)
    modifies o.memo
    ensures Realizes(r, TransformStep(EncryptName, Encrypt(names), encrypt, names, old(View(o))), o)
    ensures r.Ok? && o.memo == null ==> fresh(r.value.memo)
  {
    r := TransformProperties(EncryptName, Encrypt(names), encrypt, names, o);
  }

  /** `hashPasswords(hash, ...propNames)(o)`. */
  method HashPasswords(hash: Value -> Value, names: seq<string>, o: Entity) returns (r: Result<Entity, MixinError>)
    modifies o.memo
    ensures Realizes(r, TransformStep(HashName, Hash(names), hash, names, old(View(o))), o)
    ensures r.Ok? && o.memo == null ==> fresh(r.value.memo)
  {
    r := TransformProperties(HashName, Hash(names), hash, names, o);
  }

  /** Call the closure `m` on `o`. */
  method Apply(c: Crypto, m: Mixin, o: Entity) returns (r: Result<Entity, MixinError>)
    modifies o.memo
    ensures Realizes(r, ApplyMixin(c, m, old(View(o))), o)
    ensures r.Ok? && o.memo == null && r.value.memo != null ==> fresh(r.value.memo)
  {
    match m
    case Require(names) =>
      RequireSpec(c, names, View(o));
      r := RequireProperties(names, o);
    case Freeze(isUpdate, names) =>
      r := FreezeProperties(isUpdate, names, o);
    case Encrypt(names) =>
      r := EncryptProperties(c.encrypt, names, o);
    case Hash(names) =>
      r := HashPasswords(c.hash, names, o);
  }

  /** Step `i` of `Run`: a throw ends the run, otherwise the rest runs on the result. */
  lemma RunAt(c: Crypto, ms: seq<Mixin>, i: nat, v: State)
    requires i < |ms|
    ensures var st := ApplyMixin(c, ms[i], v);
      st.outcome.Err? ==> Run(c, ms[i..], v) == st
    ensures var st := ApplyMixin(c, ms[i], v);
      st.outcome.Ok? ==>
        && Run(c, ms[i..], v).outcome == Run(c, ms[i + 1..], st.outcome.value).outcome
        && (v.memo.Some? ==> Run(c, ms[i..], v).shared == Run(c, ms[i + 1..], st.outcome.value).shared)
  {
    assert ms[i..][0] == ms[i] && ms[i..][1..] == ms[i + 1..];
  }

  /** Apply a mixin list left to right, feeding each result to the next and stopping at the first throw. */
  method ApplyAll(c: Crypto, ms: seq<Mixin>, o: Entity) returns (r: Result<Entity, MixinError>)
    modifies o.memo
    ensures Realizes(r, Run(c, ms, old(View(o))), o)
    ensures r.Ok? && o.memo == null && r.value.memo != null ==> fresh(r.value.memo)
  {
    ghost var s0 := View(o);
    ghost var whole := Run(c, ms, s0);
    RunSharesMemo(c, ms, s0);
    var cur := o;
    ghost var v := s0;
    var i := 0;
    while i < |ms|
      invariant 0 <= i <= |ms|
      invariant o.memo != null ==> cur.memo == o.memo
      invariant o.memo == null && cur.memo != null ==> fresh(cur.memo)
      invariant View(cur) == v
      invariant whole.outcome == Run(c, ms[i..], v).outcome
      invariant o.memo != null ==> whole.shared == Run(c, ms[i..], v).shared
    {
      RunAt(c, ms, i, v);
      var step := Apply(c, ms[i], cur);
      if step.Err? {
        return Err(step.error);
      }
      cur := step.value;
      v := View(cur);
      i := i + 1;
    }
    assert ms[i..] == [];
    return Ok(cur);
  }

  // ---------------------------------------------------------------------
  // The exported factories

  /** `requirePropertiesMixin(...propNames)`. */
  function RequirePropertiesMixin(names: seq<string>): (r: Mixin)
    ensures Kind(r).None? && r.names == names
  {
    Require(names)
  }

  /** `freezePropertiesMixin(...propNames)`: always starts in non-enforcing mode. */
  function FreezePropertiesMixin(names: seq<string>): (r: Mixin)
    ensures Kind(r) == Some(FreezeName) && r.names == names && !r.isUpdate
  {
    Freeze(false, names)
  }

  /** `encryptPropertiesMixin(...propNames)`. */
  function EncryptPropertiesMixin(names: seq<string>): (r: Mixin)
    ensures Kind(r) == Some(EncryptName) && r.names == names
  {
    Encrypt(names)
  }

  /** `hashPasswordsMixin(...propNames)`: hashing with the `hash` collaborator. */
  function HashPasswordsMixin(names: seq<string>): (r: Mixin)
    ensures Kind(r) == Some(HashName) && r.names == names
  {
    Hash(names)
  }

  /**
   * A mixin from `freezePropertiesMixin` never throws, changes no property,
   * and leaves the enforcing `freezeProperties(true, names)` in the memo
   * unless a freeze entry is there already.
   */
  lemma FreezeMixinInstallsEnforcing(c: Crypto, names: seq<string>, s: State)
    ensures var st := ApplyMixin(c, FreezePropertiesMixin(names), s);
      && st.outcome.Ok?
      && st.outcome.value.props == s.props
      && st.outcome.value.memo.Some?
      && FreezeName in st.outcome.value.memo.value
      && (FreezeName !in Keys(s.memo) ==> st.outcome.value.memo.value[FreezeName] == Freeze(true, names))
  {
    FreezeSpec(c, false, names, s);
  }

  /**
   * The memoized freeze enforces: applied to an object with a listed key it
   * throws, naming exactly the listed keys the object has.
   */
  lemma InstalledFreezeRejects(c: Crypto, names: seq<string>, s: State, p: State)
    requires FreezeName !in Keys(s.memo)
    requires exists k :: k in p.props && k in names
    ensures var st := ApplyMixin(c, FreezePropertiesMixin(names), s);
      var installed := st.outcome.value.memo.value[FreezeName];
      ApplyMixin(c, installed, p).outcome == Err(ReadonlyProperties(set k | k in p.props && k in names))
  {
    FreezeMixinInstallsEnforcing(c, names, s);
    FreezeSpec(c, true, names, p);
  }

  // ---------------------------------------------------------------------
  // Global mixins

  /** The personal-information properties every model encrypts. */
  const PersonalInfo: seq<string> := ["lastName", "address", "email", "phone", "mobile", "creditCard", "ccv", "ssn"]

  /** `encryptPersonalInfo`. */
  const EncryptPersonalInfo: Mixin := Encrypt(PersonalInfo)

  /** `GlobalMixins`. */
  const GlobalMixins: seq<Mixin> := [EncryptPersonalInfo]

  /**
   * The global list encrypts exactly the truthy personal-information
   * properties, keeps every other property, and memoizes itself under
   * `encryptProperties` unless an encrypt entry exists.
   */
  lemma GlobalMixinsEncryptPersonalInfo(c: Crypto, s: State)
    ensures var st := Run(c, GlobalMixins, s);
      && st.outcome.Ok?
      && st.outcome.value.props.Keys == s.props.Keys
      && (forall k :: k in s.props ==>
            st.outcome.value.props[k] ==
              if k in PersonalInfo && Truthy(s.props[k]) then c.encrypt(s.props[k]) else s.props[k])
      && st.outcome.value.memo == Some(Install(s.memo, EncryptName, EncryptPersonalInfo))
  {
    TransformSpec(c, EncryptPersonalInfo, s);
    var st := ApplyMixin(c, EncryptPersonalInfo, s);
    assert GlobalMixins[1..] == [];
    assert Run(c, GlobalMixins, s).outcome == st.outcome;
  }

  /**
   * After `encryptPersonalInfo` has run, a second `encryptProperties` mixin
   * still encrypts its own properties but installs nothing: the memo keeps
   * `encryptPersonalInfo`'s entry.
   */
  lemma SecondEncryptInstallsNothing(c: Crypto, names: seq<string>, s: State)
    requires names != []
    ensures var first := ApplyMixin(c, EncryptPersonalInfo, s).outcome.value;
      var second := ApplyMixin(c, EncryptPropertiesMixin(names), first);
      && second.outcome.Ok?
      && second.outcome.value.memo == first.memo
      && (EncryptName !in Keys(s.memo) ==> first.memo.value[EncryptName] == EncryptPersonalInfo)
  {
    TransformSpec(c, EncryptPersonalInfo, s);
    var first := ApplyMixin(c, EncryptPersonalInfo, s).outcome.value;
    TransformSpec(c, Encrypt(names), first);
  }
}
