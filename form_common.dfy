/** What the issue and project form definitions share: translations, tag rows
    and the option list of users who can be assigned issues. */
module FormCommon {
  import opened Php

  /** `trans($key)` and `trans($key, ['name' => $name])`; the translation table is not modelled. */
  datatype Lang = Lang(text: string -> string, named: (string, string) -> string)

  /** A stored tag row. */
  datatype Tag = Tag(id: nat, name: string, parentId: nat, bgcolor: string)

  /** A tag a form can offer: a stored row, or the empty `new Tag()` whose columns are all null. */
  datatype Choice = Stored(tag: Tag) | NewTag

  /** `$tag->id` */
  function ChoiceId(c: Choice): Value {
    if c.Stored? then Int(c.tag.id) else Null
  }

  /** `ucwords($tag->name)`; `ucwords(null)` is the empty string. */
  function ChoiceLabel(c: Choice): string {
    if c.Stored? then UcWords(c.tag.name) else ""
  }

  /** `$tag->bgcolor` */
  function ChoiceColor(c: Choice): Value {
    if c.Stored? then Str(c.tag.bgcolor) else Null
  }

  /** One `'name' => value` entry of an array literal. */
  function E(name: string, v: Value): (Key, Value) {
    (StrKey(name), v)
  }

  /** The rows of `->lists('fullname', 'id')`, as (id, full name) entries in query order. */
  function UserEntries(users: seq<(nat, string)>): (e: PhpArray)
    ensures |e| == |users|
    ensures forall i :: 0 <= i < |users| ==> e[i] == (IntKey(users[i].0), Str(users[i].1))
  {
    seq(|users|, i requires 0 <= i < |users| => (IntKey(users[i].0), Str(users[i].1)))
  }

  /** `[0 => ''] + $users->lists('fullname', 'id')->all()`: the option list of a user select,
      an empty first choice, then each user id mapped to the full name (a later row
      overwriting an earlier one with the same id). */
  function AssigneeOptions(users: seq<(nat, string)>): (r: PhpArray)
    ensures |r| > 0 && r[0] == (IntKey(0), Str(""))
    ensures forall i :: 0 <= i < |users| ==> IntKey(users[i].0) in Keys(r)
    ensures forall k :: k in Keys(r) ==> k == IntKey(0) || k in Keys(UserEntries(users))
  {
    var e := UserEntries(users);
    assert forall i :: 0 <= i < |users| ==> Keys(e)[i] == IntKey(users[i].0);
    PutAllKeys([], e);
    UnionKeys([(IntKey(0), Str(""))], PutAll([], e));
    Union([(IntKey(0), Str(""))], PutAll([], e))
  }

  /** With distinct, non-zero user ids the options are the empty choice followed by the users in order. */
  lemma AssigneeOptionsDistinct(users: seq<(nat, string)>)
    requires forall i, j :: 0 <= i < j < |users| ==> users[i].0 != users[j].0
    requires forall i :: 0 <= i < |users| ==> users[i].0 != 0
    ensures AssigneeOptions(users) == [(IntKey(0), Str(""))] + UserEntries(users)
  {
    var e := UserEntries(users);
    UserEntriesUnique(users);
    PutAllFresh([], e);
    assert [] + e == e;
    var empty := [(IntKey(0), Str(""))];
    assert Keys(empty) == [IntKey(0)];
    forall i | 0 <= i < |e| ensures e[i].0 !in Keys(empty) {
      assert e[i].0 == IntKey(users[i].0);
    }
    UnionFresh(empty, e);
    calc {
      AssigneeOptions(users);
      Union(empty, PutAll([], e));
      Union(empty, e);
      empty + e;
    }
  }

  lemma UserEntriesUnique(users: seq<(nat, string)>)
    requires forall i, j :: 0 <= i < j < |users| ==> users[i].0 != users[j].0
    ensures UniqueKeys(UserEntries(users))
  {
    var e := UserEntries(users);
    forall i, j | 0 <= i < j < |e| ensures e[i].0 != e[j].0 {
      assert e[i].0 == IntKey(users[i].0) && e[j].0 == IntKey(users[j].0);
    }
  }
}
