# Mixin engine and user model

This project models the functional-mixin engine of `src/models/mixins.js` and
the user model of `src/models/user.js`, and proves what each mixin does.

A mixin is a closure from an object to an object that may throw. The engine
has four factories:

- `requireProperties` rejects an object whose named properties are falsy.
- `freezeProperties` rejects keys listed as frozen, but only in update mode.
- `encryptProperties` replaces the named truthy properties by their encryption.
- `hashPasswords` replaces them by their hash.

The last three memoize themselves. Each stores a closure in a per-object
`Map`, the memo, under its factory's function name (`preUpdateMixins`). The
freeze factory stores its enforcing variant there. Spreading an object copies
the reference to that `Map`, so an object and every object spread from it share
one memo, and the mixins update it in place.

The model is in three layers:

- `values.dfy` (module `Values`): JavaScript values reduced to what the mixins
  observe. That is truthiness (`!!v`) and `o[p]` reading `undefined` for a
  missing key.
- `mixin_spec.dfy` (module `MixinSpec`): reference semantics as functions.
  An object is a `State`: its properties plus the contents of its memo, if it
  has one. A mixin call yields a `Step`: what the call returns or throws, and
  what it leaves in the memo the input carried. That memo may change even when
  the call throws. The lemmas here state each factory's behaviour.
- `mixins.dfy` (module `Mixins`): the engine as imperative code. It has a
  `Memo` class whose `entries` field is the mutable `Map`, and an `Entity`
  holding the properties and a `Memo?` reference. There is one method per
  factory, and each is proved to realise the `MixinSpec` step for its input.
  The module also holds the exported `*Mixin` wrappers and `GlobalMixins`.
- `user.dfy` (module `User`): `userFactory`, `userMixins` and
  `getUserSerializers`, with end-to-end lemmas about the user list.

Closures are the datatype `Mixin = Require | Freeze(isUpdate) | Encrypt | Hash`.
`encrypt`, `hash`, `decrypt` and the `uuid()` result are parameters, so every
lemma holds for all of them. `Run` and `ApplyAll` apply a mixin list left to
right and stop at the first throw. They are glue: no runner is part of the
modelled source.

Where the code and the system's stated design differ, the model follows the
code:

- Encryption and hashing run on every call of the mixin. The memo does not
  guard them. `User.UserRerunHashesAgain` shows that running the user list
  again hashes the stored hash a second time. There is no "at most once"
  guarantee.
- `requireProperties` rejects every falsy value, including `0`, `false` and
  `""`, not only absent ones.
- The freeze check looks at the keys of the object it is given. Keys whose
  value is `undefined` count. Every user record has the key `userId`. So the
  installed freeze rejects every full user record
  (`User.InstalledFreezeRejectsEveryRecord`), not only patches that touch a
  frozen field.
- A failed call does not always leave the input untouched. With an empty name
  list, `encryptProperties` and `hashPasswords` install themselves in the
  input's memo before `reduce` throws (`MixinSpec.TransformSpec`, the
  `shared` clause).

## Model

| member | source | states |
|---|---|---|
| `MixinSpec.Install` | src/models/mixins.js:22-34 | the memo afterwards has exactly the old keys plus `name`; existing entries are never overwritten; a missing key gets the built mixin; a missing memo starts empty |
| `Mixins.PreUpdateMixins` | src/models/mixins.js:22-34 | result has the input's properties; it shares the input's memo, or has a fresh one if the input had none; the memo now holds `Install(old memo, name, entry)`; if the key was present, the result is the input and the memo is unchanged |
| `MixinSpec.RunSharesMemo` | src/models/mixins.js:23-31 | over a whole run, the input's memo object stays the one later mixins update; an input without a memo has none changed |
| `MixinSpec.Missing` | src/models/mixins.js:89 | the missing-name list is no longer than the name list |
| `MixinSpec.MissingExact` | src/models/mixins.js:89 | a name is reported iff it is listed and its property is falsy |
| `MixinSpec.MissingAppend` | src/models/mixins.js:89 | the reported names keep declaration order: the report for `a + b` is the report for `a` followed by the one for `b` |
| `MixinSpec.RequireSpec` | src/models/mixins.js:88-94 | passes iff every named property is truthy, and then returns the input unchanged; otherwise throws with exactly the falsy names; the memo is untouched |
| `Mixins.RequireProperties` | src/models/mixins.js:88-94 | same as `RequireSpec`, for the method on an entity: `Ok(o)` iff all named properties are truthy, else `MissingProperties` of the falsy names |
| `MixinSpec.FreezeSpec` | src/models/mixins.js:65-82 | throws iff in update mode and the object has a listed key, naming exactly those keys; if it does not throw, properties are unchanged and the memo gains the enforcing freeze unless it already has a freeze entry |
| `Mixins.FreezeProperties` | src/models/mixins.js:65-82 | the method's return value and the input's memo afterwards are exactly those of `FreezeStep` |
| `MixinSpec.MergeFromPatches` | src/models/mixins.js:45 | once the accumulator holds the patch for the names done so far, folding in the remaining single-property patches gives the patch for all names |
| `MixinSpec.ReducePatches` | src/models/mixins.js:41-46 | the map-and-reduce throws iff there are no names; otherwise it yields exactly the named truthy properties, transformed |
| `MixinSpec.TransformFrame` | src/models/mixins.js:54-57 | spreading the patch over the object changes no key; the named truthy properties get the transformed value; all other properties keep theirs |
| `MixinSpec.TransformStepSpec` | src/models/mixins.js:40-58 | encrypt/hash body: throws `EmptyReduce` iff there are no names; the input's memo gets the entry even then; on success the memo is installed, and the properties keep their keys, with only the named truthy ones transformed |
| `MixinSpec.TransformSpec` | src/models/mixins.js:96-114 | the statement of `TransformStepSpec` for the `Encrypt` and `Hash` closures, hashing with `hash` and encrypting with `encrypt` |
| `Mixins.TransformProperties` | src/models/mixins.js:40-58 | the method's return value and the input's memo afterwards are exactly those of `TransformStep` |
| `Mixins.EncryptProperties` | src/models/mixins.js:40-58 | as `TransformProperties`, under the key `encryptProperties`, memoizing `encryptProperties(...propNames)` |
| `Mixins.HashPasswords` | src/models/mixins.js:96-114 | as `TransformProperties`, under the key `hashPasswords`, memoizing `hashPasswords(hash, ...propNames)` |
| `Mixins.Apply` | src/models/mixins.js:40-114 | calling any closure on an entity does exactly what `ApplyMixin` predicts, for the result and for the shared memo |
| `MixinSpec.MemoKeyIsKind` | src/models/mixins.js:48-52 | after a successful call, the memo keys are the old keys plus the call's own factory name (none for require); old entries are unchanged; if the kind was present, the memo is unchanged |
| `MixinSpec.ApplyMixinKeepsMemoWellFormed` | src/models/mixins.js:79-81 | one call keeps every memo entry under its own factory's name, and keeps the freeze entry the enforcing one |
| `MixinSpec.RunKeepsMemoWellFormed` | src/models/mixins.js:79-81 | the same holds over any mixin list, whether it succeeds or throws |
| `Mixins.RequirePropertiesMixin` | src/models/mixins.js:116-118 | the exported require mixin does not memoize and checks the given names |
| `Mixins.FreezePropertiesMixin` | src/models/mixins.js:120-122 | the exported freeze mixin starts in non-enforcing mode, keyed `freezeProperties` |
| `Mixins.EncryptPropertiesMixin` | src/models/mixins.js:124-126 | the exported encrypt mixin is keyed `encryptProperties`, over the given names |
| `Mixins.HashPasswordsMixin` | src/models/mixins.js:128-130 | the exported hash mixin is keyed `hashPasswords`, over the given names |
| `Mixins.FreezeMixinInstallsEnforcing` | src/models/mixins.js:120-122 | the exported freeze never throws and changes no property; it leaves `freezeProperties(true, names)` in the memo unless a freeze entry exists |
| `Mixins.InstalledFreezeRejects` | src/models/mixins.js:75-81 | the memoized freeze throws on any object that has a listed key, naming exactly those keys |
| `Mixins.GlobalMixinsEncryptPersonalInfo` | src/models/mixins.js:132-149 | the global list encrypts exactly the truthy personal-information properties; it keeps every other property and adds no key; it memoizes itself under `encryptProperties` |
| `Mixins.SecondEncryptInstallsNothing` | src/models/mixins.js:133-142 | after `encryptPersonalInfo`, another encrypt mixin succeeds but leaves the memo as it was, still holding `encryptPersonalInfo` |
| `User.UserFactory` | src/models/user.js:9-29 | the record has exactly the eight user fields and no memo; `userId` is the generated identifier; every other field is copied from the arguments, or `undefined` |
| `User.UserMixinsOrder` | src/models/user.js:31-35 | the user list is require(userName, password, firstName), then freeze(userId, userName) non-enforcing, then hash(password) |
| `User.MissingRequired` | src/models/user.js:32 | the reported fields are the falsy ones among userName, password and firstName, in that order |
| `User.UserMissingFields` | src/models/user.js:32 | if a required field is falsy, the user list throws at its first mixin, naming exactly the falsy required fields in order; the memo is untouched |
| `User.UserCreate` | src/models/user.js:31-35 | on a record without a memo whose required fields are truthy, the list succeeds; the password becomes its hash and every other field keeps its value; the new memo holds the enforcing freeze and the hash mixin |
| `User.UserFactoryCreate` | src/models/user.js:9-35 | for a record built by the factory with truthy required arguments: all eight fields are kept, the password is hashed, the rest is unchanged, and the memo is the user memo |
| `User.UserFrozenFields` | src/models/user.js:33 | the installed freeze throws on any object that has `userId` or `userName`, naming exactly the frozen keys present |
| `User.InstalledFreezeRejectsEveryRecord` | src/models/user.js:19-28 | the installed freeze throws on every record the factory builds, because each has a `userId` key |
| `User.UserRerunHashesAgain` | src/models/user.js:34 | running the user list again on a created user does not enforce the freeze; it re-hashes the stored password and leaves the memo unchanged |
| `User.GetUserSerializers` | src/models/user.js:37-58 | exactly three hooks, for phone, email and lastName; each runs on deserialize with type string, and maps `(key, value)` to `decrypt(value)` whatever the key |
| `User.DeserializedFieldsAreEncryptedFields` | src/models/user.js:37-58 | the deserialized keys are exactly the user fields among the globally encrypted personal-information fields |
| `User.DeserializerUndoesEncryption` | src/models/user.js:43 | when `decrypt` undoes `encrypt`, one hook gives back the truthy value its field had before the global list ran |
| `User.DeserializersUndoGlobalEncryption` | src/models/user.js:37-57 | the same round trip for every hook at once |

## Left out

- `async` and `Object.freeze` in `userFactory`: the factory is a function returning a value. A promise adds nothing here, and Dafny values are immutable.
- `userFactory` called with `null`: the arguments are an object. Destructuring `null` throws in JavaScript, and that case is not modelled.
- `preUpdateMixins.toJSON = () => void 0`: serialization is not modelled, so the memo is a field kept apart from the properties.
- The memo's own property key `preUpdateMixins`: it is not one of the properties. A mixin naming that key (require, freeze or encrypt over `"preUpdateMixins"`) is not modelled.
- Properties inherited through the prototype chain, such as `toString`: `o[p]` reads only the object's own properties.
- JavaScript numbers as floats, `NaN`, `-0`, and objects or arrays as property values: values are undefined, null, booleans, integers and strings.
- Error message text: errors are a datatype carrying the names.
- `FreezeSpec`: reports the offending keys as a set, not in `Object.keys` order, because properties are a map and carry no insertion order.
- The `cb` thunk of `preUpdateMixins`: it is passed as the mixin it builds. Building that closure has no effect, so not calling `cb` when the key exists cannot be observed.
- `hashPasswords` with a hash other than the `hash` of `./utils`: the only caller passes that one, so the hash is the collaborator the closure is applied with.
- `encrypt`, `hash`, `decrypt` (`./utils`, Node's `crypto`), and the `uuid` generator: they are foreign calls, so they are parameters.
- The update-pipeline runner, including the merge of the old entity with a patch: its behaviour is not in the modelled source. `Run` and `ApplyAll` are a plain left-to-right fold that stops at the first throw.
- `src/models/order-config.js` is not part of this model. It is declarative configuration whose predicates and mixins (`processUpdate`, `updatePropertiesMixin`, `validatePropertiesMixin`) come from files that are not present.
