/**
 * Reference semantics of the functional mixins of `src/models/mixins.js`.
 *
 * A mixin is a function from an object to an object that may throw. The
 * objects it works on carry, beside their properties, an optional memo: a
 * table from a mixin factory's function name to the mixin that factory
 * installed for this object (`preUpdateMixins`). Here an object is a `State`
 * whose memo is the table's contents; the methods in module `Mixins` work on
 * the shared, mutable table itself and are proved to agree with these
 * functions.
 */
module MixinSpec {
  import opened Values

  /** `Function.name` of the three factories that memoize themselves. */
  const EncryptName := "encryptProperties"
  const FreezeName := "freezeProperties"
  const HashName := "hashPasswords"

  /** The closures the factories return, as data. */
  datatype Mixin =
    | Require(names: seq<string>)
    | Freeze(isUpdate: bool, names: seq<string>)
    | Encrypt(names: seq<string>)
    | Hash(names: seq<string>)

  /** What a mixin throws. */
  datatype MixinError =
    | MissingProperties(missing: seq<string>) // "missing required properties: …"
    | ReadonlyProperties(keys: set<string>)   // "cannot update readonly properties: …"
    | EmptyReduce                             // `reduce` of an empty array with no initial value

  /** The injected crypto collaborators of `./utils`. */
  datatype Crypto = Crypto(encrypt: Value -> Value, hash: Value -> Value)

  type Entries = map<string, Mixin>

  /** An object: its properties and, if it has one, the contents of its memo. */
  datatype State = State(props: Props, memo: Option<Entries>)

  /**
   * The effect of one mixin call: what it returns or throws, and the contents
   * afterwards of the memo object the INPUT carried (None if it carried none).
   * The input's memo is a shared object, so a call that throws may still have
   * changed it.
   */
  datatype Step = Step(outcome: Result<State, MixinError>, shared: Option<Entries>)

  function Keys(memo: Option<Entries>): set<string> {
    if memo.Some? then memo.value.Keys else {}
  }

  /** The memo key a mixin installs itself under; `requireProperties` does not memoize. */
  function Kind(m: Mixin): Option<string> {
    match m
    case Require(_) => None
    case Freeze(_, _) => Some(FreezeName)
    case Encrypt(_) => Some(EncryptName)
    case Hash(_) => Some(HashName)
  }

  /** What a memo entry may hold under each key: the freeze entry is always the enforcing one. */
  predicate EntryFits(key: string, m: Mixin) {
    match m
    case Require(_) => false
    case Freeze(isUpdate, _) => key == FreezeName && isUpdate
    case Encrypt(_) => key == EncryptName
    case Hash(_) => key == HashName
  }

  predicate MemoWellFormed(memo: Option<Entries>) {
    memo.Some? ==> forall k :: k in memo.value ==> EntryFits(k, memo.value[k])
  }

  // ---------------------------------------------------------------------
  // preUpdateMixins

  /**
   * The memo's contents after `preUpdateMixins(o, name, cb)`: a missing memo
   * starts empty, a missing key is set to the built closure, an existing entry
   * is never overwritten.
   */
  function Install(memo: Option<Entries>, name: string, entry: Mixin): (r: Entries)
    ensures r.Keys == Keys(memo) + {name}
    ensures forall k :: k in Keys(memo) ==> r[k] == memo.value[k]
    ensures name !in Keys(memo) ==> r[name] == entry
  {
    var table := if memo.Some? then memo.value else map[];
    if name in table then table else table[name := entry]
  }

  /** The step of a mixin that returns `preUpdateMixins(o, name, cb)` with the properties unchanged. */
  function Installed(s: State, name: string, entry: Mixin): Step {
    var e := Install(s.memo, name, entry);
    Step(Ok(State(s.props, Some(e))), if s.memo.Some? then Some(e) else None)
  }

  // ---------------------------------------------------------------------
  // requireProperties

  /** `propNames.filter(key => !o[key])`. */
  function Missing(names: seq<string>, props: Props): (r: seq<string>)
    ensures |r| <= |names|
  {
    if names == [] then []
    else (if Truthy(Get(props, names[0])) then [] else [names[0]]) + Missing(names[1..], props)
  }

  /** The missing names are exactly the named properties that are falsy. */
  lemma {:induction false} MissingExact(names: seq<string>, props: Props)
    ensures forall n :: n in Missing(names, props) <==> n in names && !Truthy(Get(props, n))
  {
    if names != [] {
      MissingExact(names[1..], props);
      assert forall n :: n in names <==> n == names[0] || n in names[1..];
    }
  }

  /** The missing names keep the order in which they were declared. */
  lemma {:induction false} MissingAppend(a: seq<string>, b: seq<string>, props: Props)
    ensures Missing(a + b, props) == Missing(a, props) + Missing(b, props)
  {
    if a == [] {
      assert a + b == b;
    } else {
      assert (a + b)[0] == a[0];
      assert (a + b)[1..] == a[1..] + b;
      MissingAppend(a[1..], b, props);
    }
  }

  function RequireStep(names: seq<string>, s: State): Step {
    var missing := Missing(names, s.props);
    if |missing| > 0 then Step(Err(MissingProperties(missing)), s.memo)
    else Step(Ok(s), s.memo)
  }

  // ---------------------------------------------------------------------
  // freezeProperties

  /** `Object.keys(o).filter(key => propNames.includes(key))`, as a set. */
  function ReadonlyKeys(props: Props, names: seq<string>): set<string> {
    set k | k in props && k in names
  }

  /** Check in update mode, then memoize the enforcing version `freezeProperties(true, …)`. */
  function FreezeStep(isUpdate: bool, names: seq<string>, s: State): Step {
    var frozen := ReadonlyKeys(s.props, names);
    if isUpdate && |frozen| > 0 then Step(Err(ReadonlyProperties(frozen)), s.memo)
    else Installed(s, FreezeName, Freeze(true, names))
  }

  // ---------------------------------------------------------------------
  // encryptProperties and hashPasswords

  /** `o[p] ? { [p]: f(o[p]) } : {}`. */
  function Patch(f: Value -> Value, p: string, props: Props): map<string, Value> {
    if Truthy(Get(props, p)) then map[p := f(Get(props, p))] else map[]
  }

  /** `propNames.map(p => …)`. */
  function Patches(f: Value -> Value, names: seq<string>, props: Props): (r: seq<map<string, Value>>)
    ensures |r| == |names|
  {
    if names == [] then [] else [Patch(f, names[0], props)] + Patches(f, names[1..], props)
  }

  /** The rest of `.reduce((p, c) => ({ ...c, ...p }))` from accumulator `acc`: the accumulator wins. */
  function MergeFrom(acc: map<string, Value>, rest: seq<map<string, Value>>): map<string, Value>
    decreases |rest|
  {
    if rest == [] then acc else MergeFrom(rest[0] + acc, rest[1..])
  }

  /** `reduce` without an initial value: None where JavaScript throws a TypeError. */
  function Reduce(ps: seq<map<string, Value>>): Option<map<string, Value>> {
    if ps == [] then None else Some(MergeFrom(ps[0], ps[1..]))
  }

  /** Independent definition of the patch: every named truthy property, transformed. */
  function TruthyPatch(f: Value -> Value, names: seq<string>, props: Props): map<string, Value> {
    map k | k in props && k in names && Truthy(props[k]) :: f(props[k])
  }

  lemma PatchExtends(f: Value -> Value, done: seq<string>, n: string, props: Props)
    ensures Patch(f, n, props) + TruthyPatch(f, done, props) == TruthyPatch(f, done + [n], props)
  {
    var lhs := Patch(f, n, props) + TruthyPatch(f, done, props);
    var rhs := TruthyPatch(f, done + [n], props);
    assert forall k :: k in done + [n] <==> k in done || k == n;
    assert lhs.Keys == rhs.Keys;
  }

  lemma {:induction false} MergeFromPatches(f: Value -> Value, done: seq<string>, rest: seq<string>, props: Props)
    ensures MergeFrom(TruthyPatch(f, done, props), Patches(f, rest, props)) == TruthyPatch(f, done + rest, props)
    decreases |rest|
  {
    if rest == [] {
      assert done + rest == done;
    } else {
      var ps := Patches(f, rest, props);
      assert ps[0] == Patch(f, rest[0], props) && ps[1..] == Patches(f, rest[1..], props);
      PatchExtends(f, done, rest[0], props);
      MergeFromPatches(f, done + [rest[0]], rest[1..], props);
      assert done + [rest[0]] + rest[1..] == done + rest;
    }
  }

  /**
   * The map-and-reduce computes exactly the truthy patch, and throws exactly
   * when there are no property names.
   */
  lemma ReducePatches(f: Value -> Value, names: seq<string>, props: Props)
    ensures names == [] <==> Reduce(Patches(f, names, props)).None?
    ensures names != [] ==> Reduce(Patches(f, names, props)) == Some(TruthyPatch(f, names, props))
  {
    if names != [] {
      var ps := Patches(f, names, props);
      assert ps[0] == Patch(f, names[0], props) && ps[1..] == Patches(f, names[1..], props);
      PatchExtends(f, [], names[0], props);
      assert [] + [names[0]] == [names[0]];
      assert TruthyPatch(f, [], props) == map[];
      assert Patch(f, names[0], props) + map[] == Patch(f, names[0], props);
      MergeFromPatches(f, [names[0]], names[1..], props);
      assert [names[0]] + names[1..] == names;
    }
  }

  /**
   * `{ ...o, ...patch }`: the named truthy properties are transformed, every
   * other property keeps its value, and no key is added.
   */
  lemma TransformFrame(f: Value -> Value, names: seq<string>, props: Props)
    ensures (props + TruthyPatch(f, names, props)).Keys == props.Keys
    ensures forall k :: k in props ==>
      (props + TruthyPatch(f, names, props))[k] ==
        if k in names && Truthy(props[k]) then f(props[k]) else props[k]
  {
  }

  /**
   * Install under `name` first (this happens even when the mixin then throws),
   * then spread the patch over the input's properties.
   */
  function TransformStep(name: string, entry: Mixin, f: Value -> Value, names: seq<string>, s: State): Step {
    var e := Install(s.memo, name, entry);
    var shared := if s.memo.Some? then Some(e) else None;
    match Reduce(Patches(f, names, s.props))
    case None => Step(Err(EmptyReduce), shared)
    case Some(patch) => Step(Ok(State(s.props + patch, Some(e))), shared)
  }

  // ---------------------------------------------------------------------
  // One mixin, and a list of them

  /** Calling the closure `m` on the object `s`. */
  function ApplyMixin(c: Crypto, m: Mixin, s: State): Step {
    match m
    case Require(names) => RequireStep(names, s)
    case Freeze(isUpdate, names) => FreezeStep(isUpdate, names, s)
    case Encrypt(names) => TransformStep(EncryptName, Encrypt(names), c.encrypt, names, s)
    case Hash(names) => TransformStep(HashName, Hash(names), c.hash, names, s)
  }

  /** A left-to-right fold of a mixin list that stops at the first throw. */
  function Run(c: Crypto, ms: seq<Mixin>, s: State): Step
    decreases |ms|
  {
    if ms == [] then Step(Ok(s), s.memo)
    else
      var st := ApplyMixin(c, ms[0], s);
      match st.outcome
      case Err(_) => st
      case Ok(next) =>
        var rest := Run(c, ms[1..], next);
        Step(rest.outcome, if s.memo.Some? then rest.shared else None)
  }

  // ---------------------------------------------------------------------
  // Properties of single mixins

  /** `requireProperties` passes iff every named property is truthy, and then returns its input. */
  lemma RequireSpec(c: Crypto, names: seq<string>, s: State)
    ensures ApplyMixin(c, Require(names), s).shared == s.memo
    ensures ApplyMixin(c, Require(names), s).outcome.Ok? <==> forall n :: n in names ==> Truthy(Get(s.props, n))
    ensures ApplyMixin(c, Require(names), s).outcome.Ok? ==> ApplyMixin(c, Require(names), s).outcome.value == s
    ensures ApplyMixin(c, Require(names), s).outcome.Err? ==>
      ApplyMixin(c, Require(names), s).outcome.error == MissingProperties(Missing(names, s.props))
  {
    MissingExact(names, s.props);
    if forall n :: n in names ==> Truthy(Get(s.props, n)) {
      assert Missing(names, s.props) == [];
    } else {
      var n :| n in names && !Truthy(Get(s.props, n));
      assert n in Missing(names, s.props);
    }
  }

  /**
   * `freezeProperties(false, …)` never throws; `freezeProperties(true, …)`
   * throws iff the object has a listed key, naming exactly those keys. When it
   * does not throw it leaves the properties alone and memoizes the enforcing
   * `freezeProperties(true, names)`, unless a freeze entry exists already.
   */
  lemma FreezeSpec(c: Crypto, isUpdate: bool, names: seq<string>, s: State)
    ensures var st := ApplyMixin(c, Freeze(isUpdate, names), s);
      && (st.outcome.Err? <==> isUpdate && exists k :: k in s.props && k in names)
      && (st.outcome.Err? ==>
            st.shared == s.memo && st.outcome.error == ReadonlyProperties(set k | k in s.props && k in names))
      && (st.outcome.Ok? ==> st.outcome.value == State(s.props, Some(Install(s.memo, FreezeName, Freeze(true, names)))))
  {
    var frozen := ReadonlyKeys(s.props, names);
    if exists k :: k in s.props && k in names {
      var k :| k in s.props && k in names;
      assert k in frozen;
    } else {
      assert frozen == {};
    }
  }

  /** The crypto collaborator an encrypt or hash mixin applies. */
  function Transformer(c: Crypto, m: Mixin): Value -> Value {
    if m.Hash? then c.hash else c.encrypt
  }

  lemma TransformStepSpec(name: string, entry: Mixin, f: Value -> Value, names: seq<string>, s: State)
    ensures var st := TransformStep(name, entry, f, names, s);
      && (st.outcome.Err? <==> names == [])
      && (st.outcome.Err? ==> st.outcome.error == EmptyReduce)
      && (s.memo.Some? ==> st.shared == Some(Install(s.memo, name, entry)))
      && (st.outcome.Ok? ==>
            && st.outcome.value.memo == Some(Install(s.memo, name, entry))
            && st.outcome.value.props.Keys == s.props.Keys
            && forall k :: k in s.props ==>
                 st.outcome.value.props[k] ==
                   if k in names && Truthy(s.props[k]) then f(s.props[k]) else s.props[k])
  {
    ReducePatches(f, names, s.props);
    TransformFrame(f, names, s.props);
  }

  /**
   * `encryptProperties` / `hashPasswords`: with no names they throw (after
   * having installed themselves in the input's memo); otherwise every named
   * truthy property holds the transformed value, everything else is kept,
   * and no key is added.
   */
  lemma TransformSpec(c: Crypto, m: Mixin, s: State)
    requires m.Encrypt? || m.Hash?
    ensures var st := ApplyMixin(c, m, s);
      && (st.outcome.Err? <==> m.names == [])
      && (st.outcome.Err? ==> st.outcome.error == EmptyReduce)
      && (s.memo.Some? ==> st.shared == Some(Install(s.memo, Kind(m).value, m)))
      && (st.outcome.Ok? ==>
            && st.outcome.value.memo == Some(Install(s.memo, Kind(m).value, m))
            && st.outcome.value.props.Keys == s.props.Keys
            && forall k :: k in s.props ==>
                 st.outcome.value.props[k] ==
                   if k in m.names && Truthy(s.props[k]) then Transformer(c, m)(s.props[k]) else s.props[k])
  {
    TransformStepSpec(Kind(m).value, m, Transformer(c, m), m.names, s);
  }

  /**
   * The memo is keyed by the factory's name: a successful call leaves every
   * existing entry as it was and adds at most the entry for its own kind, so a
   * second mixin of a kind the memo already holds installs nothing.
   */
  lemma MemoKeyIsKind(c: Crypto, m: Mixin, s: State)
    ensures var st := ApplyMixin(c, m, s);
      st.outcome.Ok? ==>
        && st.outcome.value.props.Keys == s.props.Keys
        && Keys(st.outcome.value.memo) == Keys(s.memo) + (if Kind(m).Some? then {Kind(m).value} else {})
        && (forall k :: k in Keys(s.memo) ==> st.outcome.value.memo.value[k] == s.memo.value[k])
        && (s.memo.Some? ==> st.outcome.value.memo.Some? && st.shared == st.outcome.value.memo)
        && (Kind(m).None? || Kind(m).value in Keys(s.memo) ==> st.outcome.value.memo == s.memo)
  {
    match m
    case Require(_) =>
    case Freeze(_, _) =>
    case Encrypt(names) => TransformFrame(c.encrypt, names, s.props); ReducePatches(c.encrypt, names, s.props);
    case Hash(names) => TransformFrame(c.hash, names, s.props); ReducePatches(c.hash, names, s.props);
  }

  /** One mixin call keeps the memo well formed, on success and on a throw. */
  lemma ApplyMixinKeepsMemoWellFormed(c: Crypto, m: Mixin, s: State)
    requires MemoWellFormed(s.memo)
    ensures MemoWellFormed(ApplyMixin(c, m, s).shared)
    ensures ApplyMixin(c, m, s).outcome.Ok? ==> MemoWellFormed(ApplyMixin(c, m, s).outcome.value.memo)
  {
  }

  /**
   * Any run of any mixin list keeps the memo well formed: at most one entry per
   * factory, under that factory's name, and the freeze entry always enforcing.
   */
  lemma {:induction false} RunKeepsMemoWellFormed(c: Crypto, ms: seq<Mixin>, s: State)
    requires MemoWellFormed(s.memo)
    ensures MemoWellFormed(Run(c, ms, s).shared)
    ensures Run(c, ms, s).outcome.Ok? ==> MemoWellFormed(Run(c, ms, s).outcome.value.memo)
    decreases |ms|
  {
    if ms != [] {
      var st := ApplyMixin(c, ms[0], s);
      ApplyMixinKeepsMemoWellFormed(c, ms[0], s);
      if st.outcome.Ok? {
        RunKeepsMemoWellFormed(c, ms[1..], st.outcome.value);
      }
    }
  }

  /** The memo object of the input stays the one every later mixin sees and updates. */
  lemma {:induction false} RunSharesMemo(c: Crypto, ms: seq<Mixin>, s: State)
    ensures s.memo.None? ==> Run(c, ms, s).shared.None?
    ensures s.memo.Some? ==> Run(c, ms, s).shared.Some?
    ensures s.memo.Some? && Run(c, ms, s).outcome.Ok? ==> Run(c, ms, s).shared == Run(c, ms, s).outcome.value.memo
    decreases |ms|
  {
    if ms != [] {
      var st := ApplyMixin(c, ms[0], s);
      if st.outcome.Ok? {
        RunSharesMemo(c, ms[1..], st.outcome.value);
        MemoKeyIsKind(c, ms[0], s);
      }
    }
  }
}
