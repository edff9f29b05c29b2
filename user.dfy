/**
 * The user model of `src/models/user.js`: its record factory, its mixin list
 * and its deserializers, with the end-to-end behaviour of the mixin list on a
 * freshly built record.
 */
module User {
  import opened Values
  import opened MixinSpec
  import opened Mixins

  /** The fields of every user record. */
  const UserFields: set<string> :=
    {"userId", "password", "userName", "customerId", "firstName", "lastName", "phone", "email"}

  /** The fields the user mixin list requires, in declaration order. */
  const RequiredUserFields: seq<string> := ["userName", "password", "firstName"]

  /** The fields the user mixin list freezes. */
  const FrozenUserFields: seq<string> := ["userId", "userName"]

  /**
   * `userFactory({ uuid })(args)`, where `uuid` is the value the injected
   * generator returns: every field is present, `userId` is the generated
   * identifier, and every other field is copied from the arguments, or
   * `undefined` when they lack it. A record has no memo yet.
   */
  function UserFactory(uuid: Value, args: Props): (r: State)
    ensures r.props.Keys == UserFields && r.memo == None
    ensures r.props["userId"] == uuid
    ensures forall k :: k in UserFields && k != "userId" ==> r.props[k] == Get(args, k)
  {
    State(map[
      "userId" := uuid,
      "password" := Get(args, "password"),
      "userName" := Get(args, "userName"),
      "customerId" := Get(args, "customerId"),
      "firstName" := Get(args, "firstName"),
      "lastName" := Get(args, "lastName"),
      "phone" := Get(args, "phone"),
      "email" := Get(args, "email")], None)
  }

  /** `userMixins`. */
  const UserMixins: seq<Mixin> := [
    RequirePropertiesMixin(RequiredUserFields),
    FreezePropertiesMixin(FrozenUserFields),
    HashPasswordsMixin(["password"])
  ]

  /** The list is require, then non-enforcing freeze, then hash. */
  lemma UserMixinsOrder()
    ensures UserMixins == [
      Require(["userName", "password", "firstName"]),
      Freeze(false, ["userId", "userName"]),
      Hash(["password"])]
  {
  }

  /** The memo a successful first run leaves: the enforcing freeze and the hash mixin. */
  const UserMemo: Entries := map[FreezeName := Freeze(true, FrozenUserFields), HashName := Hash(["password"])]

  /** The falsy required fields, in declaration order. */
  lemma MissingRequired(props: Props)
    ensures Missing(RequiredUserFields, props) ==
      (if Truthy(Get(props, "userName")) then [] else ["userName"]) +
      (if Truthy(Get(props, "password")) then [] else ["password"]) +
      (if Truthy(Get(props, "firstName")) then [] else ["firstName"])
  {
    MissingOne("userName", props);
    MissingOne("password", props);
    MissingOne("firstName", props);
    MissingAppend(["password"], ["firstName"], props);
    assert ["password"] + ["firstName"] == ["password", "firstName"];
    MissingAppend(["userName"], ["password", "firstName"], props);
    assert ["userName"] + ["password", "firstName"] == RequiredUserFields;
  }

  lemma MissingOne(n: string, props: Props)
    ensures Missing([n], props) == if Truthy(Get(props, n)) then [] else [n]
  {
    assert [n][1..] == [];
  }

  /** `Run` on a three-element list, one mixin at a time. */
  lemma RunThree(c: Crypto, ms: seq<Mixin>, s: State)
    requires |ms| == 3
    ensures var st0 := ApplyMixin(c, ms[0], s);
      st0.outcome.Err? ==> Run(c, ms, s) == st0
    ensures var st0 := ApplyMixin(c, ms[0], s);
      st0.outcome.Ok? ==>
        var st1 := ApplyMixin(c, ms[1], st0.outcome.value);
        && (st1.outcome.Err? ==>
              Run(c, ms, s).outcome == st1.outcome && (s.memo.Some? ==> Run(c, ms, s).shared == st1.shared))
        && (st1.outcome.Ok? ==>
              var st2 := ApplyMixin(c, ms[2], st1.outcome.value);
              && Run(c, ms, s).outcome == st2.outcome
              && (s.memo.Some? ==> Run(c, ms, s).shared == st2.shared))
  {
    var ms1, ms2 := ms[1..], ms[1..][1..];
    assert ms1[0] == ms[1] && ms2[0] == ms[2] && ms2[1..] == [];
    var st0 := ApplyMixin(c, ms[0], s);
    if st0.outcome.Ok? {
      var s1 := st0.outcome.value;
      MemoKeyIsKind(c, ms[0], s);
      var st1 := ApplyMixin(c, ms[1], s1);
      if st1.outcome.Ok? {
        var s2 := st1.outcome.value;
        MemoKeyIsKind(c, ms[1], s1);
        MemoKeyIsKind(c, ms[2], s2);
        var st2 := ApplyMixin(c, ms[2], s2);
        assert Run(c, ms2, s2).outcome == st2.outcome;
        assert s2.memo.Some? ==> Run(c, ms2, s2).shared == st2.shared;
        assert Run(c, ms1, s1).outcome == Run(c, ms2, s2).outcome;
        assert s1.memo.Some? ==> Run(c, ms1, s1).shared == Run(c, ms2, s2).shared;
      }
    }
  }

  /**
   * On an object whose required fields are not all truthy the list throws at
   * its first mixin, naming exactly the falsy required fields in declaration
   * order, and leaves the memo alone.
   */
  lemma UserMissingFields(c: Crypto, s: State)
    requires !Truthy(Get(s.props, "userName")) || !Truthy(Get(s.props, "password")) || !Truthy(Get(s.props, "firstName"))
    ensures Run(c, UserMixins, s).shared == s.memo
    ensures Run(c, UserMixins, s).outcome == Err(MissingProperties(
      (if Truthy(Get(s.props, "userName")) then [] else ["userName"]) +
      (if Truthy(Get(s.props, "password")) then [] else ["password"]) +
      (if Truthy(Get(s.props, "firstName")) then [] else ["firstName"])))
  {
    RequireSpec(c, RequiredUserFields, s);
    MissingRequired(s.props);
    RunThree(c, UserMixins, s);
  }

  /**
   * On a record without a memo whose required fields are truthy the list
   * succeeds: the initial freeze never rejects, the password is replaced by
   * its hash, every other field keeps its value, and the new memo holds the
   * enforcing freeze and the hash mixin.
   */
  lemma UserCreate(c: Crypto, s: State)
    requires s.memo == None
    requires Truthy(Get(s.props, "userName")) && Truthy(Get(s.props, "password")) && Truthy(Get(s.props, "firstName"))
    ensures Run(c, UserMixins, s).shared == None
    ensures Run(c, UserMixins, s).outcome ==
      Ok(State(s.props["password" := c.hash(s.props["password"])], Some(UserMemo)))
  {
    RequireSpec(c, RequiredUserFields, s);
    var s1 := ApplyMixin(c, UserMixins[0], s).outcome.value;
    assert s1 == s;
    FreezeSpec(c, false, FrozenUserFields, s1);
    var s2 := ApplyMixin(c, UserMixins[1], s1).outcome.value;
    assert s2 == State(s.props, Some(map[FreezeName := Freeze(true, FrozenUserFields)]));
    TransformSpec(c, UserMixins[2], s2);
    var s3 := ApplyMixin(c, UserMixins[2], s2).outcome.value;
    assert s3.props == s.props["password" := c.hash(s.props["password"])];
    assert s3.memo == Some(UserMemo);
    RunThree(c, UserMixins, s);
    RunSharesMemo(c, UserMixins, s);
  }

  /** Creation from the factory: the outcome for a record built from `args`. */
  lemma UserFactoryCreate(c: Crypto, uuid: Value, args: Props)
    requires Truthy(Get(args, "userName")) && Truthy(Get(args, "password")) && Truthy(Get(args, "firstName"))
    ensures var s := UserFactory(uuid, args);
      && Run(c, UserMixins, s).outcome.Ok?
      && var u := Run(c, UserMixins, s).outcome.value;
      && u.props.Keys == UserFields
      && u.props["password"] == c.hash(Get(args, "password"))
      && (forall k :: k in UserFields && k != "password" ==> u.props[k] == s.props[k])
      && u.memo == Some(UserMemo)
  {
    UserCreate(c, UserFactory(uuid, args));
  }

  /**
   * The freeze the first run installed enforces: on any object that has
   * `userId` or `userName` it throws, naming exactly the frozen keys present.
   */
  lemma UserFrozenFields(c: Crypto, p: State)
    requires "userId" in p.props || "userName" in p.props
    ensures ApplyMixin(c, UserMemo[FreezeName], p).outcome ==
      Err(ReadonlyProperties(set k | k in p.props && k in FrozenUserFields))
  {
    var k := if "userId" in p.props then "userId" else "userName";
    assert k in p.props && k in FrozenUserFields;
    FreezeSpec(c, true, FrozenUserFields, p);
  }

  /**
   * Every user record has a `userId` key (even when its value is `undefined`),
   * so the installed freeze throws on every record the factory builds.
   */
  lemma InstalledFreezeRejectsEveryRecord(c: Crypto, uuid: Value, args: Props)
    ensures ApplyMixin(c, UserMemo[FreezeName], UserFactory(uuid, args)).outcome.Err?
  {
    UserFrozenFields(c, UserFactory(uuid, args));
  }

  /**
   * Running the exported list again on a created user does not enforce the
   * freeze (the list's own freeze is the non-enforcing one and installs
   * nothing) and hashes the already hashed password once more: the memo does
   * not guard the hashing.
   */
  lemma UserRerunHashesAgain(c: Crypto, u: State)
    requires u.memo == Some(UserMemo)
    requires Truthy(Get(u.props, "userName")) && Truthy(Get(u.props, "password")) && Truthy(Get(u.props, "firstName"))
    ensures Run(c, UserMixins, u).shared == Some(UserMemo)
    ensures Run(c, UserMixins, u).outcome ==
      Ok(State(u.props["password" := c.hash(u.props["password"])], Some(UserMemo)))
  {
    RequireSpec(c, RequiredUserFields, u);
    FreezeSpec(c, false, FrozenUserFields, u);
    var s2 := ApplyMixin(c, UserMixins[1], u).outcome.value;
    assert s2 == u;
    TransformSpec(c, UserMixins[2], s2);
    var s3 := ApplyMixin(c, UserMixins[2], s2);
    assert s3.outcome.value.props == u.props["password" := c.hash(u.props["password"])];
    RunThree(c, UserMixins, u);
  }

  // ---------------------------------------------------------------------
  // Serializers

  /** A serializer hook: when it runs, for which key, the declared type and the value mapping. */
  datatype Serializer = Serializer(on: string, key: string, typ: string, value: (string, Value) -> Value)

  /**
   * `getUserSerializers({ decrypt })`: three deserialize hooks, for phone,
   * email and lastName, of type string, each mapping `(key, value)` to
   * `decrypt(value)` whatever the key.
   */
  function GetUserSerializers(decrypt: Value -> Value): (r: seq<Serializer>)
    ensures |r| == 3
    ensures r[0].key == "phone" && r[1].key == "email" && r[2].key == "lastName"
    ensures forall i :: 0 <= i < |r| ==> r[i].on == "deserialize" && r[i].typ == "string"
    ensures forall i, k, v :: 0 <= i < |r| ==> r[i].value(k, v) == decrypt(v)
  {
    [
      Serializer("deserialize", "phone", "string", (key, value) => decrypt(value)),
      Serializer("deserialize", "email", "string", (key, value) => decrypt(value)),
      Serializer("deserialize", "lastName", "string", (key, value) => decrypt(value))
    ]
  }

  /** The deserialized fields are exactly the user fields the global mixin list encrypts. */
  lemma DeserializedFieldsAreEncryptedFields(decrypt: Value -> Value)
    ensures var sers := GetUserSerializers(decrypt);
      (set i | 0 <= i < |sers| :: sers[i].key) == (set k | k in UserFields && k in PersonalInfo)
  {
    var sers := GetUserSerializers(decrypt);
    var keys := set i | 0 <= i < |sers| :: sers[i].key;
    assert keys == {"phone", "email", "lastName"} by {
      assert sers[0].key in keys && sers[1].key in keys && sers[2].key in keys;
    }
    assert PersonalInfo[0] == "lastName" && PersonalInfo[2] == "email" && PersonalInfo[3] == "phone";
  }

  /** The round trip through serializer `i`. */
  lemma DeserializerUndoesEncryption(c: Crypto, decrypt: Value -> Value, s: State, i: nat)
    requires forall v :: decrypt(c.encrypt(v)) == v
    requires s.props.Keys == UserFields
    requires i < 3
    ensures Run(c, GlobalMixins, s).outcome.Ok?
    ensures var sers := GetUserSerializers(decrypt);
      var e := Run(c, GlobalMixins, s).outcome.value;
      && e.props.Keys == UserFields
      && (Truthy(s.props[sers[i].key]) ==>
            sers[i].value(sers[i].key, e.props[sers[i].key]) == s.props[sers[i].key])
  {
    GlobalMixinsEncryptPersonalInfo(c, s);
    var k := GetUserSerializers(decrypt)[i].key;
    assert k in PersonalInfo && k in UserFields by {
      if i == 0 {
        assert k == PersonalInfo[3];
      } else if i == 1 {
        assert k == PersonalInfo[2];
      } else {
        assert k == PersonalInfo[0];
      }
    }
  }

  /**
   * When `decrypt` undoes `encrypt`, deserializing a user record that went
   * through the global mixin list gives back every truthy value of the
   * deserialized fields.
   */
  lemma DeserializersUndoGlobalEncryption(c: Crypto, decrypt: Value -> Value, s: State)
    requires forall v :: decrypt(c.encrypt(v)) == v
    requires s.props.Keys == UserFields
    ensures Run(c, GlobalMixins, s).outcome.Ok?
    ensures var sers := GetUserSerializers(decrypt);
      var e := Run(c, GlobalMixins, s).outcome.value;
      && e.props.Keys == UserFields
      && forall i :: 0 <= i < |sers| && Truthy(s.props[sers[i].key]) ==>
           sers[i].value(sers[i].key, e.props[sers[i].key]) == s.props[sers[i].key]
  {
    DeserializerUndoesEncryption(c, decrypt, s, 0);
    forall i | 0 <= i < 3
      ensures var sers := GetUserSerializers(decrypt);
        var e := Run(c, GlobalMixins, s).outcome.value;
        Truthy(s.props[sers[i].key]) ==>
          sers[i].value(sers[i].key, e.props[sers[i].key]) == s.props[sers[i].key]
    {
      DeserializerUndoesEncryption(c, decrypt, s, i);
    }
  }
}
