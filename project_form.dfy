/** The add/edit project form definition: its fields (with the kanban column
    checkboxes), actions, validation rules and redirect target. */
module ProjectForm {
  import opened Php
  import opened FormCommon

  /** Project visibility and status codes used as select option keys. */
  const PRIVATE_YES := 1
  const PRIVATE_NO := 0
  const STATUS_OPEN := 1
  const STATUS_ARCHIVED := 0

  /** The names of the two built-in status tags, which never become kanban columns. */
  const TAG_STATUS_OPEN := "open"
  const TAG_STATUS_CLOSED := "closed"

  /** The project being edited: its name, the users who can fix its issues as (id, full name),
      the ids of its kanban tags in query order, and the URL `to('edit')` gives. */
  datatype ProjectModel = ProjectModel(name: string, fixers: seq<(nat, string)>, kanbanTagIds: seq<nat>, editUrl: string)

  /** The form: the project when editing (none when creating) and every status tag. */
  datatype FormState = FormState(model: Option<ProjectModel>, statusTags: seq<Tag>)

  predicate Editing(st: FormState) {
    st.model.Some?
  }

  // ---------------------------------------------------------------------------
  // Actions

  /** `actions()`: update and delete when editing, create otherwise. */
  function Actions(st: FormState, lang: Lang): (r: PhpArray)
    ensures Keys(r) == if Editing(st) then [StrKey("submit"), StrKey("delete")] else [StrKey("submit")]
  {
    if Editing(st) then [E("submit", Str("update")), E("delete", DeleteAction(st, lang))]
    else [E("submit", Str("create_project"))]
  }

  function DeleteAction(st: FormState, lang: Lang): Value
    requires Editing(st)
  {
    Arr([E("type", Str("danger_submit")),
         E("label", Str(lang.named("tinyissue.delete_something", st.model.value.name))),
         E("class", Str("delete-project")), E("name", Str("delete-project")),
         E("data-message", Str(lang.text("tinyissue.delete_project_confirm")))])
  }

  /** Submitting updates an edited project and creates a new one; the delete button names
      the project being edited. */
  lemma ActionsContents(st: FormState, lang: Lang)
    ensures var r := Actions(st, lang);
      && At(r, "submit") == Str(if Editing(st) then "update" else "create_project")
      && (Editing(st) ==>
            && Sub(At(r, "delete"), "type") == Str("danger_submit")
            && Sub(At(r, "delete"), "label") == Str(lang.named("tinyissue.delete_something", st.model.value.name)))
  {
    var r := Actions(st, lang);
    LookupAt(r, StrKey("submit"), 0);
    if Editing(st) {
      LookupAt(r, StrKey("delete"), 1);
      var delete := DeleteAction(st, lang).entries;
      LookupAt(delete, StrKey("type"), 0);
      LookupAt(delete, StrKey("label"), 1);
    }
  }

  // ---------------------------------------------------------------------------
  // Kanban columns

  /** A status tag other than the built-in open and closed tags. */
  predicate IsColumnTag(t: Tag) {
    !(t.name == TAG_STATUS_OPEN || t.name == TAG_STATUS_CLOSED)
  }

  /** The status tags that can be kanban columns, in their original order. */
  function ColumnTags(tags: seq<Tag>): (r: seq<Tag>)
    ensures |r| <= |tags|
    ensures forall t :: t in r ==> t in tags && IsColumnTag(t)
  {
    if tags == [] then []
    else
      var last := tags[|tags| - 1];
      ColumnTags(tags[..|tags| - 1]) + (if IsColumnTag(last) then [last] else [])
  }

  /** Filtering distributes over concatenation, so it keeps the input order. */
  lemma {:induction false} ColumnTagsAppend(a: seq<Tag>, b: seq<Tag>)
    ensures ColumnTags(a + b) == ColumnTags(a) + ColumnTags(b)
    decreases |b|
  {
    if b == [] {
      assert a + b == a;
    } else {
      var init, last := b[..|b| - 1], b[|b| - 1];
      assert (a + b)[..|a + b| - 1] == a + init;
      ColumnTagsAppend(a, init);
    }
  }

  /** Every column tag of the input is kept. */
  lemma {:induction false} ColumnTagsComplete(tags: seq<Tag>)
    ensures forall t :: t in tags && IsColumnTag(t) ==> t in ColumnTags(tags)
  {
    if tags != [] {
      var init, last := tags[..|tags| - 1], tags[|tags| - 1];
      ColumnTagsComplete(init);
      assert tags == init + [last];
    }
  }

  /** `$selectTags->search($id)`: the position of the first occurrence. */
  function IndexOfId(ids: seq<nat>, id: nat): (i: nat)
    requires id in ids
    ensures i < |ids| && ids[i] == id && id !in ids[..i]
  {
    if ids[0] == id then 0 else 1 + IndexOfId(ids[1..], id)
  }

  /** The tick as written, `isset($selectTags) && $selectTags->search($id) > 0`: only when
      editing and the id is found at a position greater than 0 (a miss gives `false`, and
      `false > 0` fails). */
  predicate ColumnCheckedAsWritten(st: FormState, id: nat) {
    Editing(st) && id in st.model.value.kanbanTagIds && IndexOfId(st.model.value.kanbanTagIds, id) > 0
  }

  /** The intended tick: the id is one of the edited project's kanban tags. */
  predicate ColumnChecked(st: FormState, id: nat) {
    Editing(st) && id in st.model.value.kanbanTagIds
  }

  predicate Checked(st: FormState, id: nat, asWritten: bool) {
    if asWritten then ColumnCheckedAsWritten(st, id) else ColumnChecked(st, id)
  }

  /** As written, a column is ticked exactly when it is selected and is not the first selection. */
  lemma ColumnCheckedAsWrittenMeaning(st: FormState, id: nat)
    ensures ColumnCheckedAsWritten(st, id) <==>
      ColumnChecked(st, id) && id != st.model.value.kanbanTagIds[0]
  {
    if Editing(st) && id in st.model.value.kanbanTagIds {
      var i := IndexOfId(st.model.value.kanbanTagIds, id);
      if i > 0 {
        assert st.model.value.kanbanTagIds[..i][0] == st.model.value.kanbanTagIds[0];
      }
    }
  }

  /** One checkbox: `ucwords($tag->name) => [value, data-tags, color, checked]`. */
  function ColumnEntry(t: Tag, checked: bool): (Key, Value) {
    (StrKey(UcWords(t.name)),
     Arr([E("value", Int(t.id)), E("data-tags", Int(t.id)), E("color", Str(t.bgcolor)), E("checked", Bool(checked))]))
  }

  function ColumnEntries(st: FormState, tags: seq<Tag>, asWritten: bool): (e: PhpArray)
    ensures |e| == |tags|
    ensures forall i :: 0 <= i < |tags| ==> e[i] == ColumnEntry(tags[i], Checked(st, tags[i].id, asWritten))
  {
    seq(|tags|, i requires 0 <= i < |tags| => ColumnEntry(tags[i], Checked(st, tags[i].id, asWritten)))
  }

  /** `getKanbanColumnsField()`: the `columns[]` checkbox group, one checkbox per column tag,
      ticked as written or as intended. */
  function KanbanColumnsField(st: FormState, lang: Lang, asWritten: bool): (f: PhpArray)
    ensures Keys(f) == [StrKey("columns[]")]
  {
    ColumnsField(PutAll([], ColumnEntries(st, ColumnTags(st.statusTags), asWritten)), lang)
  }

  function ColumnsField(options: PhpArray, lang: Lang): (f: PhpArray)
    ensures Keys(f) == [StrKey("columns[]")]
  {
    [E("columns[]", Arr([E("label", Str("columns")), E("type", Str("checkboxButton")), E("checkboxes", Arr(options)),
                         E("grouped", Bool(true)), E("help", Str(lang.text("tinyissue.columns_help")))]))]
  }

  /** The checkboxes of the `columns[]` field. */
  function Checkboxes(f: PhpArray): PhpArray {
    var boxes := Sub(At(f, "columns[]"), "checkboxes");
    if boxes.Arr? then boxes.entries else []
  }

  lemma ColumnsFieldBoxes(options: PhpArray, lang: Lang)
    ensures Checkboxes(ColumnsField(options, lang)) == options
  {
    var f := ColumnsField(options, lang);
    LookupAt(f, StrKey("columns[]"), 0);
    var attrs := [E("label", Str("columns")), E("type", Str("checkboxButton")), E("checkboxes", Arr(options)),
                  E("grouped", Bool(true)), E("help", Str(lang.text("tinyissue.columns_help")))];
    LookupAt(attrs, StrKey("checkboxes"), 2);
  }

  /** Labels of distinct column tags differ after `ucwords`. */
  predicate DistinctLabels(tags: seq<Tag>) {
    forall i, j :: 0 <= i < j < |tags| ==> UcWords(tags[i].name) != UcWords(tags[j].name)
  }

  /** The kanban checkboxes offer every status tag except open and closed, and only those;
      with distinct labels they are exactly those tags in input order. */
  lemma KanbanOptions(st: FormState, lang: Lang, asWritten: bool)
    ensures var boxes, tags := Checkboxes(KanbanColumnsField(st, lang, asWritten)), ColumnTags(st.statusTags);
      && (forall t :: t in st.statusTags && IsColumnTag(t) ==> StrKey(UcWords(t.name)) in Keys(boxes))
      && (forall k :: k in Keys(boxes) ==> exists t :: t in st.statusTags && IsColumnTag(t) && k == StrKey(UcWords(t.name)))
      && (DistinctLabels(tags) ==> boxes == ColumnEntries(st, tags, asWritten))
  {
    var tags := ColumnTags(st.statusTags);
    ColumnsFieldBoxes(PutAll([], ColumnEntries(st, tags, asWritten)), lang);
    ColumnTagsComplete(st.statusTags);
    ColumnKeysOffered(st, tags, asWritten);
    ColumnKeysOnly(st, tags, asWritten);
    if DistinctLabels(tags) {
      ColumnEntriesInOrder(st, tags, asWritten);
    }
  }

  lemma ColumnKeysOffered(st: FormState, tags: seq<Tag>, asWritten: bool)
    ensures forall t :: t in tags ==> StrKey(UcWords(t.name)) in Keys(PutAll([], ColumnEntries(st, tags, asWritten)))
  {
    var e := ColumnEntries(st, tags, asWritten);
    PutAllKeys([], e);
    forall t | t in tags ensures StrKey(UcWords(t.name)) in Keys(PutAll([], e)) {
      var i :| 0 <= i < |tags| && tags[i] == t;
      assert Keys(e)[i] == StrKey(UcWords(t.name));
    }
  }

  lemma ColumnKeysOnly(st: FormState, tags: seq<Tag>, asWritten: bool)
    ensures forall k :: k in Keys(PutAll([], ColumnEntries(st, tags, asWritten))) ==>
      exists t :: t in tags && k == StrKey(UcWords(t.name))
  {
    var e := ColumnEntries(st, tags, asWritten);
    PutAllKeys([], e);
    forall k | k in Keys(PutAll([], e)) ensures exists t :: t in tags && k == StrKey(UcWords(t.name)) {
      var i :| 0 <= i < |e| && Keys(e)[i] == k;
      assert tags[i] in tags;
    }
  }

  lemma ColumnEntriesInOrder(st: FormState, tags: seq<Tag>, asWritten: bool)
    requires DistinctLabels(tags)
    ensures PutAll([], ColumnEntries(st, tags, asWritten)) == ColumnEntries(st, tags, asWritten)
  {
    var e := ColumnEntries(st, tags, asWritten);
    forall i, j | 0 <= i < j < |e| ensures e[i].0 != e[j].0 {
      assert e[i].0 == StrKey(UcWords(tags[i].name)) && e[j].0 == StrKey(UcWords(tags[j].name));
    }
    PutAllFresh([], e);
    assert [] + e == e;
  }

  /** The i-th checkbox is ticked exactly when the i-th column tag is one of the edited
      project's kanban tags. */
  lemma KanbanChecked(st: FormState, lang: Lang)
    requires DistinctLabels(ColumnTags(st.statusTags))
    ensures var boxes, tags := Checkboxes(Fields(st, lang, false)), ColumnTags(st.statusTags);
      && |boxes| == |tags|
      && forall i :: 0 <= i < |tags| ==>
           Sub(boxes[i].1, "checked") == Bool(Editing(st) && tags[i].id in st.model.value.kanbanTagIds)
  {
    var tags := ColumnTags(st.statusTags);
    FieldsColumns(st, lang, false);
    KanbanOptions(st, lang, false);
    var e := ColumnEntries(st, tags, false);
    forall i | 0 <= i < |tags|
      ensures Sub(e[i].1, "checked") == Bool(Editing(st) && tags[i].id in st.model.value.kanbanTagIds)
    {
      ColumnEntryChecked(tags[i], ColumnChecked(st, tags[i].id));
    }
  }

  /** As written, the i-th checkbox is ticked exactly when editing and the i-th column tag is
      one of the project's kanban tags other than the first. */
  lemma KanbanCheckedAsWritten(st: FormState, lang: Lang)
    requires DistinctLabels(ColumnTags(st.statusTags))
    ensures var boxes, tags := Checkboxes(Fields(st, lang, true)), ColumnTags(st.statusTags);
      && |boxes| == |tags|
      && forall i :: 0 <= i < |tags| ==>
           Sub(boxes[i].1, "checked") == Bool(Editing(st) && tags[i].id in st.model.value.kanbanTagIds
                                              && tags[i].id != st.model.value.kanbanTagIds[0])
  {
    var tags := ColumnTags(st.statusTags);
    FieldsColumns(st, lang, true);
    KanbanOptions(st, lang, true);
    var e := ColumnEntries(st, tags, true);
    forall i | 0 <= i < |tags|
      ensures Sub(e[i].1, "checked") == Bool(Editing(st) && tags[i].id in st.model.value.kanbanTagIds
                                             && tags[i].id != st.model.value.kanbanTagIds[0])
    {
      ColumnCheckedAsWrittenMeaning(st, tags[i].id);
      ColumnEntryChecked(tags[i], ColumnCheckedAsWritten(st, tags[i].id));
    }
  }

  /** As written, the form shows the column of the project's first kanban tag unticked
      although it is selected; the intended form ticks it. */
  lemma FirstSelectedColumnUnticked(st: FormState, lang: Lang, i: nat)
    requires DistinctLabels(ColumnTags(st.statusTags))
    requires Editing(st) && |st.model.value.kanbanTagIds| > 0
    requires i < |ColumnTags(st.statusTags)| && ColumnTags(st.statusTags)[i].id == st.model.value.kanbanTagIds[0]
    ensures var boxes := Checkboxes(Fields(st, lang, true));
      i < |boxes| && Sub(boxes[i].1, "checked") == Bool(false)
    ensures var boxes := Checkboxes(Fields(st, lang, false));
      i < |boxes| && Sub(boxes[i].1, "checked") == Bool(true)
  {
    var tags := ColumnTags(st.statusTags);
    FieldsColumns(st, lang, true);
    FieldsColumns(st, lang, false);
    KanbanOptions(st, lang, true);
    KanbanOptions(st, lang, false);
    ColumnEntryChecked(tags[i], false);
    ColumnEntryChecked(tags[i], true);
  }

  /** No later column tag shares the label of the i-th one. */
  predicate LastOfLabel(tags: seq<Tag>, i: nat) {
    forall j :: i < j < |tags| ==> UcWords(tags[j].name) != UcWords(tags[i].name)
  }

  /** The checkbox labelled `ucwords(name)` carries the tick of the last column tag with that
      label: the `foreach` writes each label again for every tag that has it. */
  lemma KanbanTickByLabel(st: FormState, lang: Lang, asWritten: bool, i: nat)
    requires i < |ColumnTags(st.statusTags)| && LastOfLabel(ColumnTags(st.statusTags), i)
    ensures var t := ColumnTags(st.statusTags)[i];
      Sub(At(Checkboxes(Fields(st, lang, asWritten)), UcWords(t.name)), "checked") == Bool(Checked(st, t.id, asWritten))
  {
    var tags := ColumnTags(st.statusTags);
    var e := ColumnEntries(st, tags, asWritten);
    var key := StrKey(UcWords(tags[i].name));
    FieldsColumns(st, lang, asWritten);
    ColumnsFieldBoxes(PutAll([], e), lang);
    assert Keys(e)[i] == key;
    PutAllLookup([], e, key);
    forall j | i < j < |e| ensures e[j].0 != e[i].0 {
      assert e[j].0 == StrKey(UcWords(tags[j].name));
    }
    LatestAt(e, i);
    ColumnEntryChecked(tags[i], Checked(st, tags[i].id, asWritten));
  }

  /** For every label, whatever the other labels are: the form as written ticks the box of a
      column exactly when editing and its last tag is selected but is not the first selected
      tag; the intended form ticks it exactly when editing and that tag is selected. */
  lemma KanbanTicksByLabel(st: FormState, lang: Lang, i: nat)
    requires i < |ColumnTags(st.statusTags)| && LastOfLabel(ColumnTags(st.statusTags), i)
    ensures var t := ColumnTags(st.statusTags)[i];
      && Sub(At(Checkboxes(Fields(st, lang, false)), UcWords(t.name)), "checked")
           == Bool(Editing(st) && t.id in st.model.value.kanbanTagIds)
      && Sub(At(Checkboxes(Fields(st, lang, true)), UcWords(t.name)), "checked")
           == Bool(Editing(st) && t.id in st.model.value.kanbanTagIds && t.id != st.model.value.kanbanTagIds[0])
  {
    var t := ColumnTags(st.statusTags)[i];
    KanbanTickByLabel(st, lang, false, i);
    KanbanTickByLabel(st, lang, true, i);
    ColumnCheckedAsWrittenMeaning(st, t.id);
  }

  /** As written, the box labelled after the project's first kanban tag is unticked although
      selected, unless a later column tag with the same label overwrites it; the intended form
      ticks it. */
  lemma FirstSelectedLabelUnticked(st: FormState, lang: Lang, i: nat)
    requires Editing(st) && |st.model.value.kanbanTagIds| > 0
    requires i < |ColumnTags(st.statusTags)| && LastOfLabel(ColumnTags(st.statusTags), i)
    requires ColumnTags(st.statusTags)[i].id == st.model.value.kanbanTagIds[0]
    ensures var name := UcWords(ColumnTags(st.statusTags)[i].name);
      && Sub(At(Checkboxes(Fields(st, lang, true)), name), "checked") == Bool(false)
      && Sub(At(Checkboxes(Fields(st, lang, false)), name), "checked") == Bool(true)
  {
    KanbanTicksByLabel(st, lang, i);
  }

  lemma ColumnEntryChecked(t: Tag, checked: bool)
    ensures Sub(ColumnEntry(t, checked).1, "checked") == Bool(checked)
  {
    var attrs := [E("value", Int(t.id)), E("data-tags", Int(t.id)), E("color", Str(t.bgcolor)), E("checked", Bool(checked))];
    LookupAt(attrs, StrKey("checked"), 3);
  }

  // ---------------------------------------------------------------------------
  // Fields

  function NameField(): PhpArray {
    [E("name", Arr([E("type", Str("text")), E("label", Str("name"))]))]
  }

  function VisibilityField(lang: Lang): Value {
    Arr([E("type", Str("select")), E("label", Str("visibility")),
         E("options", Arr([(IntKey(PRIVATE_YES), Str(lang.text("tinyissue.private"))),
                           (IntKey(PRIVATE_NO), Str(lang.text("tinyissue.public")))]))])
  }

  function HiddenAssignee(): Value {
    Arr([E("type", Str("hidden")), E("id", Str("default_assignee-id"))])
  }

  function UserField(lang: Lang): Value {
    Arr([E("type", Str("selectUser")), E("label", Str("assign_users")), E("id", Str("add-user-project")),
         E("placeholder", Str(lang.text("tinyissue.assign_a_user")))])
  }

  function StatusField(lang: Lang): Value {
    Arr([E("type", Str("select")), E("label", Str("status")),
         E("options", Arr([(IntKey(STATUS_OPEN), Str(lang.text("tinyissue.open"))),
                           (IntKey(STATUS_ARCHIVED), Str(lang.text("tinyissue.archived")))]))])
  }

  function AssigneeSelect(p: ProjectModel): Value {
    Arr([E("type", Str("select")), E("label", Str("default_assignee")), E("options", Arr(AssigneeOptions(p.fixers)))])
  }

  /** The first three fields, the same in both modes. */
  function BaseFields(lang: Lang): (f: PhpArray)
    ensures Keys(f) == [StrKey("name"), StrKey("private"), StrKey("default_assignee")]
  {
    NameField() + [E("private", VisibilityField(lang)), E("default_assignee", HiddenAssignee())]
  }

  /** The fields of the chosen mode, before the kanban part. */
  function ModeFields(st: FormState, lang: Lang): (f: PhpArray)
    ensures Keys(f) == [StrKey("name"), StrKey("private"), StrKey("default_assignee")]
                       + [if Editing(st) then StrKey("status") else StrKey("user")]
  {
    var base := BaseFields(lang);
    BaseNames();
    if !Editing(st) then Put(base, StrKey("user"), UserField(lang))
    else
      var withStatus := Put(base, StrKey("status"), StatusField(lang));
      Put(withStatus, StrKey("default_assignee"), AssigneeSelect(st.model.value))
  }

  lemma BaseNames()
    ensures StrKey("user") !in [StrKey("name"), StrKey("private"), StrKey("default_assignee")]
    ensures StrKey("status") !in [StrKey("name"), StrKey("private"), StrKey("default_assignee")]
    ensures StrKey("default_assignee") in [StrKey("name"), StrKey("private"), StrKey("default_assignee"), StrKey("status")]
    ensures StrKey("kanban_board") !in [StrKey("name"), StrKey("private"), StrKey("default_assignee"), StrKey("status")]
    ensures StrKey("kanban_board") !in [StrKey("name"), StrKey("private"), StrKey("default_assignee"), StrKey("user")]
  {
  }

  /** `fields()`: the mode's fields, the kanban legend and the column checkboxes, ticked as
      written (`asWritten`) or with the intended test. */
  function Fields(st: FormState, lang: Lang, asWritten: bool): PhpArray {
    var fields := Put(ModeFields(st, lang), StrKey("kanban_board"), Arr([E("type", Str("legend"))]));
    Union(fields, KanbanColumnsField(st, lang, asWritten))
  }

  /** Creating gives name, private, hidden default assignee, user, legend, columns; editing
      replaces `user` with `status` and keeps the default assignee third. The kanban legend
      and the columns always come last. */
  lemma FieldsOrder(st: FormState, lang: Lang, asWritten: bool)
    ensures Keys(Fields(st, lang, asWritten)) ==
      [StrKey("name"), StrKey("private"), StrKey("default_assignee"),
       if Editing(st) then StrKey("status") else StrKey("user"),
       StrKey("kanban_board"), StrKey("columns[]")]
    ensures UniqueKeys(Fields(st, lang, asWritten))
  {
    BaseNames();
    var mode := ModeFields(st, lang);
    var fields := Put(mode, StrKey("kanban_board"), Arr([E("type", Str("legend"))]));
    var columns := KanbanColumnsField(st, lang, asWritten);
    var keys := [StrKey("name"), StrKey("private"), StrKey("default_assignee"),
                 if Editing(st) then StrKey("status") else StrKey("user"), StrKey("kanban_board")];
    assert Keys(fields) == keys;
    FieldNamesDistinct(keys, Editing(st));
    assert UniqueKeys(fields) by {
      forall i, j | 0 <= i < j < |fields| ensures fields[i].0 != fields[j].0 {
        assert Keys(fields)[i] == fields[i].0 && Keys(fields)[j] == fields[j].0;
      }
    }
    UnionDisjoint(fields, columns);
  }

  /** The form's `columns[]` checkboxes are those of the kanban field, with the same tick. */
  lemma FieldsColumns(st: FormState, lang: Lang, asWritten: bool)
    ensures Checkboxes(Fields(st, lang, asWritten)) == Checkboxes(KanbanColumnsField(st, lang, asWritten))
  {
    FieldsOrder(st, lang, asWritten);
    var fields := Put(ModeFields(st, lang), StrKey("kanban_board"), Arr([E("type", Str("legend"))]));
    var columns := KanbanColumnsField(st, lang, asWritten);
    var keys := [StrKey("name"), StrKey("private"), StrKey("default_assignee"),
                 if Editing(st) then StrKey("status") else StrKey("user"), StrKey("kanban_board")];
    BaseNames();
    assert Keys(fields) == keys;
    FieldNamesDistinct(keys, Editing(st));
    assert UniqueKeys(fields) by {
      forall i, j | 0 <= i < j < |fields| ensures fields[i].0 != fields[j].0 {
        assert Keys(fields)[i] == fields[i].0 && Keys(fields)[j] == fields[j].0;
      }
    }
    UnionDisjoint(fields, columns);
    assert Keys(columns)[0] == StrKey("columns[]");
    forall j | 0 <= j < |fields| ensures fields[j].0 != StrKey("columns[]") {
      assert Keys(fields)[j] == fields[j].0;
    }
    LookupAt(fields + columns, StrKey("columns[]"), |fields|);
    LookupAt(columns, StrKey("columns[]"), 0);
  }

  lemma FieldNamesDistinct(keys: seq<Key>, editing: bool)
    requires keys == [StrKey("name"), StrKey("private"), StrKey("default_assignee"),
                      if editing then StrKey("status") else StrKey("user"), StrKey("kanban_board")]
    ensures forall i, j :: 0 <= i < j < |keys| ==> keys[i] != keys[j]
    ensures StrKey("columns[]") !in keys
  {
  }

  /** When creating, the default assignee is a hidden input; when editing, a select whose
      options are the empty choice followed by the users who can fix issues. */
  lemma DefaultAssigneeField(st: FormState, lang: Lang, asWritten: bool)
    ensures At(Fields(st, lang, asWritten), "default_assignee") ==
      if Editing(st) then AssigneeSelect(st.model.value) else HiddenAssignee()
    ensures Editing(st) ==>
      var options := Sub(At(Fields(st, lang, asWritten), "default_assignee"), "options");
      options.Arr? && |options.entries| > 0 && options.entries[0] == (IntKey(0), Str(""))
  {
    BaseNames();
    var mode := ModeFields(st, lang);
    ModeAssignee(st, lang);
    var fields := Put(mode, StrKey("kanban_board"), Arr([E("type", Str("legend"))]));
    PutLookup(mode, StrKey("kanban_board"), Arr([E("type", Str("legend"))]), StrKey("default_assignee"));
    assert StrKey("default_assignee") in Keys(fields);
    UnionLeftBiased(fields, KanbanColumnsField(st, lang, asWritten), StrKey("default_assignee"));
    if Editing(st) {
      AssigneeSelectOptions(st.model.value);
    }
  }

  lemma ModeAssignee(st: FormState, lang: Lang)
    ensures Lookup(ModeFields(st, lang), StrKey("default_assignee")) ==
      Some(if Editing(st) then AssigneeSelect(st.model.value) else HiddenAssignee())
  {
    BaseNames();
    var base := BaseFields(lang);
    LookupAt(base, StrKey("default_assignee"), 2);
    if Editing(st) {
      var withStatus := Put(base, StrKey("status"), StatusField(lang));
      PutLookup(base, StrKey("status"), StatusField(lang), StrKey("default_assignee"));
      PutLookup(withStatus, StrKey("default_assignee"), AssigneeSelect(st.model.value), StrKey("default_assignee"));
    } else {
      PutLookup(base, StrKey("user"), UserField(lang), StrKey("default_assignee"));
    }
  }

  lemma AssigneeSelectOptions(p: ProjectModel)
    ensures Sub(AssigneeSelect(p), "options") == Arr(AssigneeOptions(p.fixers))
  {
    var attrs := [E("type", Str("select")), E("label", Str("default_assignee")), E("options", Arr(AssigneeOptions(p.fixers)))];
    LookupAt(attrs, StrKey("options"), 2);
  }

  /** The visibility select is always shown; editing adds the open/archived status select
      and creating the user picker instead. */
  lemma ModeSpecificFields(st: FormState, lang: Lang, asWritten: bool)
    ensures At(Fields(st, lang, asWritten), "private") == VisibilityField(lang)
    ensures Editing(st) ==> At(Fields(st, lang, asWritten), "status") == StatusField(lang)
    ensures !Editing(st) ==> At(Fields(st, lang, asWritten), "user") == UserField(lang)
  {
    BaseNames();
    var mode := ModeFields(st, lang);
    ModeLookups(st, lang);
    var legend := Arr([E("type", Str("legend"))]);
    var fields := Put(mode, StrKey("kanban_board"), legend);
    var extra := if Editing(st) then StrKey("status") else StrKey("user");
    PutLookup(mode, StrKey("kanban_board"), legend, StrKey("private"));
    PutLookup(mode, StrKey("kanban_board"), legend, extra);
    assert StrKey("private") in Keys(fields) && extra in Keys(fields);
    UnionLeftBiased(fields, KanbanColumnsField(st, lang, asWritten), StrKey("private"));
    UnionLeftBiased(fields, KanbanColumnsField(st, lang, asWritten), extra);
  }

  lemma ModeLookups(st: FormState, lang: Lang)
    ensures Lookup(ModeFields(st, lang), StrKey("private")) == Some(VisibilityField(lang))
    ensures Lookup(ModeFields(st, lang), if Editing(st) then StrKey("status") else StrKey("user"))
      == Some(if Editing(st) then StatusField(lang) else UserField(lang))
  {
    BaseNames();
    var base := BaseFields(lang);
    LookupAt(base, StrKey("private"), 1);
    if Editing(st) {
      var withStatus := Put(base, StrKey("status"), StatusField(lang));
      PutLookup(base, StrKey("status"), StatusField(lang), StrKey("private"));
      PutLookup(base, StrKey("status"), StatusField(lang), StrKey("status"));
      PutLookup(withStatus, StrKey("default_assignee"), AssigneeSelect(st.model.value), StrKey("private"));
      PutLookup(withStatus, StrKey("default_assignee"), AssigneeSelect(st.model.value), StrKey("status"));
    } else {
      PutLookup(base, StrKey("user"), UserField(lang), StrKey("private"));
      PutLookup(base, StrKey("user"), UserField(lang), StrKey("user"));
    }
  }

  // ---------------------------------------------------------------------------
  // Rules and redirect

  /** `rules()`, the same in both modes. */
  function Rules(): PhpArray {
    [E("name", Str("required|max:250")), E("user", Str("array|min:1"))]
  }

  /** Every rule names a shown field exactly when creating: the `user` rule has no field
      when editing. */
  lemma RulesMatchFields(st: FormState, lang: Lang, asWritten: bool)
    ensures (forall k :: k in Keys(Rules()) ==> k in Keys(Fields(st, lang, asWritten))) <==> !Editing(st)
  {
    FieldsOrder(st, lang, asWritten);
    RuleNames(Keys(Rules()), Keys(Fields(st, lang, asWritten)), Editing(st));
  }

  lemma RuleNames(rules: seq<Key>, fields: seq<Key>, editing: bool)
    requires rules == [StrKey("name"), StrKey("user")]
    requires fields == [StrKey("name"), StrKey("private"), StrKey("default_assignee"),
                        if editing then StrKey("status") else StrKey("user"),
                        StrKey("kanban_board"), StrKey("columns[]")]
    ensures (forall k :: k in rules ==> k in fields) <==> !editing
  {
    if editing {
      assert StrKey("user") in rules;
    }
  }

  /** `getRedirectUrl()` */
  function RedirectUrl(st: FormState): string {
    if Editing(st) then st.model.value.editUrl else Join(["projects", "new"])
  }

  /** Creating goes to the new-project page; editing goes back to the project's edit page. */
  lemma RedirectTarget(st: FormState)
    ensures Editing(st) ==> RedirectUrl(st) == st.model.value.editUrl
    ensures !Editing(st) ==> Split(RedirectUrl(st)) == ["projects", "new"]
  {
    if !Editing(st) {
      SplitJoin(["projects", "new"]);
    }
  }
}
