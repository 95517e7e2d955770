/** Adding, updating and soft-deleting users, and a user's per-project message settings. */
module UserCrud {
  import opened Php

  /** `User::DELETED_USERS`, the value of the `deleted` flag of a soft-deleted user. */
  const DELETED_USERS := 1

  /** The attributes `updateSetting` lets a user change about themselves. */
  const SETTING_KEYS: set<string> := {"email", "firstname", "lastname", "language", "password", "private", "status"}

  /** The attributes `createUser` reads from its input. */
  const CREATE_KEYS: set<string> := {"email", "firstname", "lastname", "role_id", "private", "password", "status"}

  /** A request's input array; only its keys and values matter to these operations. */
  type Info = map<string, Value>

  /** `$this->name` of an attribute that is not set reads as null. */
  function Attr(attributes: Info, name: string): Value {
    if name in attributes then attributes[name] else Null
  }

  // ---------------------------------------------------------------------------
  // Attribute computations

  /** The attributes `createUser` fills: input fields copied, `private` cast to boolean, the
      password hashed and the language taken from the application settings. */
  function CreatedAttributes(info: Info, hash: string -> string, language: string): (r: Info)
    requires CREATE_KEYS <= info.Keys
    ensures r.Keys == CREATE_KEYS + {"language"}
    ensures forall k :: k in r && k in {"email", "firstname", "lastname", "role_id", "status"} ==> r[k] == info[k]
    ensures r["private"] == Bool(Truthy(info["private"]))
    ensures r["password"] == Str(hash(ToString(info["password"])))
    ensures r["language"] == Str(language)
  {
    map["email" := info["email"], "firstname" := info["firstname"], "lastname" := info["lastname"],
        "role_id" := info["role_id"], "private" := Bool(Truthy(info["private"])),
        "password" := Str(hash(ToString(info["password"]))), "status" := info["status"],
        "language" := Str(language)]
  }

  /** `update($info)`: every given attribute is overwritten, every other one is kept. */
  function Updated(attributes: Info, info: Info): (r: Info)
    ensures r.Keys == attributes.Keys + info.Keys
    ensures forall k :: k in info ==> r[k] == info[k]
    ensures forall k :: k in attributes && k !in info ==> r[k] == attributes[k]
  {
    attributes + info
  }

  /** The attributes after the soft delete: the email gets `_deleted` appended and the
      `deleted` flag is set; nothing else changes. */
  function DeletedAttributes(attributes: Info): (r: Info)
    ensures r.Keys == attributes.Keys + {"email", "deleted"}
    ensures r["email"] == Str(ToString(Attr(attributes, "email")) + "_deleted")
    ensures r["deleted"] == Int(DELETED_USERS)
    ensures forall k :: k in attributes && k !in {"email", "deleted"} ==> r[k] == attributes[k]
  {
    Updated(attributes, map["email" := Str(ToString(Attr(attributes, "email")) + "_deleted"), "deleted" := Int(DELETED_USERS)])
  }

  /** `array_intersect_key($info, array_flip([...]))`: the whitelisted settings only. */
  function SettingsOnly(info: Info): (r: Info)
    ensures r.Keys == info.Keys * SETTING_KEYS
    ensures forall k :: k in r ==> r[k] == info[k]
  {
    map k | k in info && k in SETTING_KEYS :: info[k]
  }

  /** `role_id` (or any other key outside the whitelist) never reaches the update. */
  lemma SettingsDropOthers(info: Info, k: string)
    requires k !in SETTING_KEYS
    ensures k !in SettingsOnly(info)
  {
  }

  /** The input after `updateUser`'s password handling: a truthy password is replaced by its
      hash; otherwise (`empty()` holds exactly when truthiness fails) the key is unset. The
      password survives exactly when it is not one of PHP's empty values (null, false, 0, "",
      "0", []); it is then stored hashed; every other key keeps its value and none is added. */
  function PreparedInfo(info: Info, hash: string -> string): (r: Info)
    requires "password" in info
    ensures "password" in r <==> info["password"] !in {Null, Bool(false), Int(0), Str(""), Str("0"), Arr([])}
    ensures "password" in r ==> r["password"] == Str(hash(ToString(info["password"])))
    ensures r.Keys <= info.Keys
    ensures forall k :: k in info && k != "password" ==> k in r && r[k] == info[k]
  {
    if Truthy(info["password"]) then info["password" := Str(hash(ToString(info["password"])))]
    else info - {"password"}
  }

  /** `updateUser` changes exactly the attributes named in the input: a truthy password is
      stored hashed, an empty one (including "0") leaves the stored password as it was, and
      every other attribute named in the input is stored as given. */
  lemma UpdateUserEffect(attributes: Info, info: Info, hash: string -> string)
    requires "password" in info
    ensures var r := Updated(attributes, PreparedInfo(info, hash));
      && (Truthy(info["password"]) ==> r["password"] == Str(hash(ToString(info["password"]))))
      && (!Truthy(info["password"]) ==> Attr(r, "password") == Attr(attributes, "password"))
      && (forall k :: k in info && k != "password" ==> r[k] == info[k])
      && (forall k :: k in attributes && k !in info ==> r[k] == attributes[k])
      && r.Keys <= attributes.Keys + info.Keys
  {
  }

  /** `updateSetting` never touches an attribute outside the whitelist. */
  lemma UpdateSettingKeepsOthers(attributes: Info, info: Info, hash: string -> string, k: string)
    requires "password" in info
    requires k !in SETTING_KEYS
    ensures Attr(Updated(attributes, PreparedInfo(SettingsOnly(info), hash)), k) == Attr(attributes, k)
  {
  }

  /** A role given at creation survives any later settings update: `role_id` is outside the
      whitelist. */
  lemma CreatedRoleKept(info: Info, hash: string -> string, language: string, settings: Info)
    requires CREATE_KEYS <= info.Keys && "password" in settings
    ensures Attr(Updated(CreatedAttributes(info, hash, language), PreparedInfo(SettingsOnly(settings), hash)), "role_id")
      == info["role_id"]
  {
    UpdateSettingKeepsOthers(CreatedAttributes(info, hash, language), settings, hash, "role_id");
  }

  // ---------------------------------------------------------------------------
  // Project memberships

  /** A row of `projects_users`: user, project and the message setting chosen for it. */
  datatype Membership = Membership(userId: nat, projectId: nat, messageId: Value)

  /** The memberships left after `Project\User::where('user_id', '=', $id)->delete()`. */
  function WithoutUser(rows: seq<Membership>, userId: nat): (rest: seq<Membership>)
    ensures |rest| <= |rows|
    ensures forall m :: m in rest <==> m in rows && m.userId != userId
  {
    if rows == [] then []
    else
      var init, last := rows[..|rows| - 1], rows[|rows| - 1];
      assert rows == init + [last];
      WithoutUser(init, userId) + (if last.userId == userId then [] else [last])
  }

  /** A table holding no row of the user is left exactly as it is. */
  lemma {:induction false} WithoutAbsentUser(rows: seq<Membership>, userId: nat)
    requires forall m :: m in rows ==> m.userId != userId
    ensures WithoutUser(rows, userId) == rows
  {
    if rows != [] {
      var init := rows[..|rows| - 1];
      assert rows == init + [rows[|rows| - 1]];
      WithoutAbsentUser(init, userId);
    }
  }

  /** The rows of other users keep their relative order. */
  lemma {:induction false} WithoutUserAppend(a: seq<Membership>, b: seq<Membership>, userId: nat)
    ensures WithoutUser(a + b, userId) == WithoutUser(a, userId) + WithoutUser(b, userId)
    decreases |b|
  {
    if b == [] {
      assert a + b == a;
    } else {
      var init := b[..|b| - 1];
      assert (a + b)[..|a + b| - 1] == a + init;
      WithoutUserAppend(a, init, userId);
    }
  }

  /** The setting `updateMessagesSettings` gives one row: the chosen message for its project
      when the row is the user's and its project is in the input, otherwise as it was. */
  function ApplyMessage(m: Membership, userId: nat, input: map<nat, Value>): (r: Membership)
    ensures r.(messageId := m.messageId) == m
    ensures r != m ==> m.userId == userId && m.projectId in input
    ensures m.userId == userId && m.projectId in input ==> r.messageId == input[m.projectId]
  {
    if m.userId == userId && m.projectId in input then m.(messageId := input[m.projectId]) else m
  }

  /** The whole table after `updateMessagesSettings`. */
  function MessagesApplied(rows: seq<Membership>, userId: nat, input: map<nat, Value>): (r: seq<Membership>)
    ensures |r| == |rows|
    ensures forall i :: 0 <= i < |rows| ==> r[i] == ApplyMessage(rows[i], userId, input)
  {
    seq(|rows|, i requires 0 <= i < |rows| => ApplyMessage(rows[i], userId, input))
  }

  /** Saving the same settings again changes nothing. */
  lemma MessagesIdempotent(rows: seq<Membership>, userId: nat, input: map<nat, Value>)
    ensures MessagesApplied(MessagesApplied(rows, userId, input), userId, input) == MessagesApplied(rows, userId, input)
  {
  }

  /** Only the user's rows change, and only their message setting: the rows of other users
      and the table's membership (who belongs to which project) stay as they were. */
  lemma MessagesOnlyOwnRows(rows: seq<Membership>, userId: nat, input: map<nat, Value>, i: nat)
    requires i < |rows|
    ensures var r := MessagesApplied(rows, userId, input);
      && (rows[i].userId != userId ==> r[i] == rows[i])
      && (rows[i].projectId !in input ==> r[i] == rows[i])
      && r[i].(messageId := rows[i].messageId) == rows[i]
  {
  }

  // ---------------------------------------------------------------------------
  // The stateful model

  /** The `projects_users` table. */
  class MembershipTable {
    var rows: seq<Membership>

    constructor (rows: seq<Membership>)
      ensures this.rows == rows
    {
      this.rows := rows;
    }
  }

  /** A user record: its id and its stored attributes. */
  class User {
    const id: nat
    var attributes: Info

    constructor (id: nat, attributes: Info)
      ensures this.id == id && this.attributes == attributes
    {
      this.id := id;
      this.attributes := attributes;
    }

    /** `createUser()`: fills the new record and saves it. */
    method CreateUser(info: Info, hash: string -> string, language: string) returns (saved: bool)
      requires CREATE_KEYS <= info.Keys
      modifies this
      ensures attributes == Updated(old(attributes), CreatedAttributes(info, hash, language))
      ensures saved
    {
      var insert := CreatedAttributes(info, hash, language);
      attributes := Updated(attributes, insert);
      saved := true;
    }

    /** `delete()`: the soft delete, then every membership of this user is dropped. */
    method Delete(memberships: MembershipTable) returns (deleted: bool)
      modifies this, memberships
      ensures attributes == DeletedAttributes(old(attributes))
      ensures memberships.rows == WithoutUser(old(memberships.rows), id)
      ensures deleted
    {
      attributes := DeletedAttributes(attributes);
      memberships.rows := WithoutUser(memberships.rows, id);
      deleted := true;
    }

    /** `updateSetting()`: the whitelisted part of the input goes through `updateUser`. */
    method UpdateSetting(info: Info, hash: string -> string)
      requires "password" in info
      modifies this
      ensures attributes == Updated(old(attributes), PreparedInfo(SettingsOnly(info), hash))
    {
      var update := SettingsOnly(info);
      UpdateUser(update, hash);
    }

    /** `updateUser()`: the password handling, then `update()`. The password is read
        unconditionally, so the input must hold one. */
    method UpdateUser(info: Info, hash: string -> string)
      requires "password" in info
      modifies this
      ensures attributes == Updated(old(attributes), PreparedInfo(info, hash))
    {
      var prepared := info;
      if Truthy(prepared["password"]) {
        prepared := prepared["password" := Str(hash(ToString(prepared["password"])))];
      } else {
        prepared := prepared - {"password"};
      }
      attributes := Updated(attributes, prepared);
    }

    /** `updateMessagesSettings()`: walks the membership rows and, on each row of this user
        whose project is a key of the input, stores the chosen message. */
    method UpdateMessagesSettings(input: map<nat, Value>, memberships: MembershipTable)
      modifies memberships
      ensures memberships.rows == MessagesApplied(old(memberships.rows), id, input)
    {
      var i := 0;
      while i < |memberships.rows|
        invariant 0 <= i <= |memberships.rows| == |old(memberships.rows)|
        invariant forall j :: 0 <= j < i ==> memberships.rows[j] == ApplyMessage(old(memberships.rows)[j], id, input)
        invariant forall j :: i <= j < |memberships.rows| ==> memberships.rows[j] == old(memberships.rows)[j]
      {
        var row := memberships.rows[i];
        if row.userId == id && row.projectId in input {
          memberships.rows := memberships.rows[i := row.(messageId := input[row.projectId])];
        }
        i := i + 1;
      }
    }
  }
}
