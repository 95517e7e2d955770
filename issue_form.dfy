/** The add/edit issue form definition: its fields, actions, validation rules
    and redirect target, as functions of the bound project and issue, the
    signed-in user's permissions and the tag groups. */
module IssueForm {
  import opened Php
  import opened FormCommon

  /** The project an issue belongs to; `fixers` is what `usersCanFixIssue()` yields, as (id, full name). */
  datatype Project = Project(id: nat, defaultAssignee: Option<int>, fixers: seq<(nat, string)>)

  /** The issue being edited: its stored quote in seconds, whether the quote is locked,
      its tag rows, and the URL `to('edit')` gives. */
  datatype Issue = Issue(id: nat, timeQuote: int, quoteLocked: bool, tags: seq<Tag>, editUrl: string)

  /** A tag group as `getGroupTags()` returns it: a name (`type`, `status`, `resolution`) and its tags. */
  datatype TagGroup = TagGroup(name: string, tags: seq<Tag>)

  /** What the signed-in user may do and see. `deleteGuard` is the truth value of
      `auth()->user(PERM_ISSUE_MODIFY)`, which guards the delete action; it is a separate
      input from the `issue-modify` permission that guards the internal fields. */
  datatype Caller = Caller(issueModify: bool, lockQuote: bool, deleteGuard: bool, canView: Choice -> bool)

  /** The form once `setup` has run: the project, the issue when editing, and the tag groups. */
  datatype FormState = FormState(project: Project, model: Option<Issue>, groups: seq<TagGroup>)

  predicate Editing(st: FormState) {
    st.model.Some?
  }

  /** The field names this form defines itself. */
  const OWN_FIELDS: set<Key> := {
    StrKey("title"), StrKey("body"), StrKey("tag_type"), StrKey("internal_status"),
    StrKey("tag_status"), StrKey("assigned_to"), StrKey("time_quote"), StrKey("tag_resolution")
  }

  // ---------------------------------------------------------------------------
  // Tags

  function GroupNames(groups: seq<TagGroup>): (names: seq<string>)
    ensures |names| == |groups| && forall i :: 0 <= i < |groups| ==> names[i] == groups[i].name
  {
    seq(|groups|, i requires 0 <= i < |groups| => groups[i].name)
  }

  /** `getTags($type)`: the tags of the first group with that name. */
  function GroupTags(groups: seq<TagGroup>, name: string): seq<Tag>
    requires name in GroupNames(groups)
  {
    if groups[0].name == name then groups[0].tags
    else
      assert GroupNames(groups[1..]) == GroupNames(groups)[1..];
      GroupTags(groups[1..], name)
  }

  /** `->where('parent_id', $id)`: the tags of the given parent, in order. */
  function WithParent(tags: seq<Tag>, parentId: nat): seq<Tag>
  {
    if tags == [] then []
    else
      var last := tags[|tags| - 1];
      WithParent(tags[..|tags| - 1], parentId) + (if last.parentId == parentId then [last] else [])
  }

  /** The last tag `WithParent` keeps is the last tag of that parent in the input. */
  lemma {:induction false} LastWithParent(tags: seq<Tag>, parentId: nat)
    ensures WithParent(tags, parentId) == [] <==> forall i :: 0 <= i < |tags| ==> tags[i].parentId != parentId
    ensures var r := WithParent(tags, parentId);
      r != [] ==> exists i :: (0 <= i < |tags| && tags[i] == r[|r| - 1] && tags[i].parentId == parentId
        && forall j :: i < j < |tags| ==> tags[j].parentId != parentId)
  {
    if tags != [] {
      var init, last := tags[..|tags| - 1], tags[|tags| - 1];
      var n := |tags| - 1;
      LastWithParent(init, parentId);
      assert tags == init + [last];
      var r, r0 := WithParent(tags, parentId), WithParent(init, parentId);
      if last.parentId == parentId {
        assert r == r0 + [last];
        assert tags[n] == r[|r| - 1];
      } else {
        assert r == r0;
        if r != [] {
          var i :| 0 <= i < |init| && init[i] == r0[|r0| - 1] && init[i].parentId == parentId
            && forall j :: i < j < |init| ==> init[j].parentId != parentId;
          assert tags[i] == init[i];
          assert forall j :: i < j < |tags| ==> tags[j].parentId != parentId by {
            forall j | i < j < |tags| ensures tags[j].parentId != parentId {
              if j < n { assert tags[j] == init[j]; }
            }
          }
        } else {
          forall i | 0 <= i < |tags| ensures tags[i].parentId != parentId {
            if i < n { assert tags[i] == init[i]; }
          }
        }
      }
    }
  }

  /** The tag reads of one group need that group to exist; when editing, also a first tag. */
  predicate TagsReady(st: FormState, caller: Caller, group: string) {
    if Editing(st) then group in GroupNames(st.groups) && |GroupTags(st.groups, group)| > 0
    else caller.canView(NewTag) ==> group in GroupNames(st.groups)
  }

  /** `getIssueTag($type)`: when editing, the last of the issue's tags whose parent is the
      parent of the group's first tag; otherwise, or when there is none, a new empty tag. */
  function IssueTag(st: FormState, group: string): Choice
    requires Editing(st) ==> group in GroupNames(st.groups) && |GroupTags(st.groups, group)| > 0
  {
    if Editing(st) then
      var groupId := GroupTags(st.groups, group)[0].parentId;
      var selected := WithParent(st.model.value.tags, groupId);
      if |selected| > 0 then Stored(selected[|selected| - 1]) else NewTag
    else NewTag
  }

  lemma IssueTagIsLastOfGroup(st: FormState, group: string)
    requires Editing(st) ==> group in GroupNames(st.groups) && |GroupTags(st.groups, group)| > 0
    ensures !Editing(st) ==> IssueTag(st, group) == NewTag
    ensures Editing(st) ==>
      var tags, groupId := st.model.value.tags, GroupTags(st.groups, group)[0].parentId;
      && (IssueTag(st, group) == NewTag <==> forall i :: 0 <= i < |tags| ==> tags[i].parentId != groupId)
      && (IssueTag(st, group).Stored? ==>
            exists i :: 0 <= i < |tags| && tags[i] == IssueTag(st, group).tag && tags[i].parentId == groupId
              && forall j :: i < j < |tags| ==> tags[j].parentId != groupId)
  {
    if Editing(st) {
      LastWithParent(st.model.value.tags, GroupTags(st.groups, group)[0].parentId);
    }
  }

  /** The tags a tag field offers: only the current tag when the user cannot view it,
      otherwise every tag of the group. Either way nothing outside the group but the issue's
      own tag is offered, and a field on an existing issue is never without a choice. */
  function TagChoices(st: FormState, caller: Caller, group: string): (cs: seq<Choice>)
    requires TagsReady(st, caller, group)
    ensures forall c :: c in cs ==>
      c == IssueTag(st, group) || (group in GroupNames(st.groups) && c.Stored? && c.tag in GroupTags(st.groups, group))
    ensures Editing(st) ==> |cs| > 0
    ensures !caller.canView(IssueTag(st, group)) ==> cs == [IssueTag(st, group)]
    ensures caller.canView(IssueTag(st, group)) ==>
      var tags := GroupTags(st.groups, group);
      |cs| == |tags| && forall i :: 0 <= i < |tags| ==> cs[i] == Stored(tags[i])
  {
    var current := IssueTag(st, group);
    if !caller.canView(current) then [current]
    else
      var tags := GroupTags(st.groups, group);
      seq(|tags|, i requires 0 <= i < |tags| => Stored(tags[i]))
  }

  /** One radio option: `ucwords($tag->name) => [name, value, data-tags, color]`. */
  function TagEntry(field: string, c: Choice): (Key, Value) {
    (StrKey(ChoiceLabel(c)),
     Arr([E("name", Str(field)), E("value", ChoiceId(c)), E("data-tags", ChoiceId(c)), E("color", ChoiceColor(c))]))
  }

  function TagEntries(field: string, cs: seq<Choice>): (e: PhpArray)
    ensures |e| == |cs| && forall i :: 0 <= i < |cs| ==> e[i] == TagEntry(field, cs[i])
  {
    seq(|cs|, i requires 0 <= i < |cs| => TagEntry(field, cs[i]))
  }

  /** The radio-button field of one tag group; `init` holds the options placed before the tags. */
  function TagField(st: FormState, caller: Caller, group: string, field: string, caption: string, init: PhpArray): (f: PhpArray)
    requires TagsReady(st, caller, group)
    ensures Keys(f) == [StrKey(field)]
  {
    var options := PutAll(init, TagEntries(field, TagChoices(st, caller, group)));
    [E(field, Arr([E("label", Str(caption)), E("type", Str("radioButton")), E("radios", Arr(options)),
                   E("check", ChoiceId(IssueTag(st, group)))]))]
  }

  /** The options of a radio-button field. */
  function Radios(f: PhpArray, field: string): PhpArray {
    var radios := Sub(At(f, field), "radios");
    if radios.Arr? then radios.entries else []
  }

  /** Labels of distinct tags differ after `ucwords`. */
  predicate DistinctLabels(tags: seq<Tag>) {
    forall i, j :: 0 <= i < j < |tags| ==> UcWords(tags[i].name) != UcWords(tags[j].name)
  }

  /** A tag field is one entry, named after the field, that checks the issue's current tag
      of the group and offers the tag options after `init`. */
  lemma TagFieldShape(st: FormState, caller: Caller, group: string, field: string, caption: string, init: PhpArray)
    requires TagsReady(st, caller, group)
    ensures var f := TagField(st, caller, group, field, caption, init);
      && Keys(f) == [StrKey(field)]
      && Sub(At(f, field), "check") == ChoiceId(IssueTag(st, group))
      && Radios(f, field) == PutAll(init, TagEntries(field, TagChoices(st, caller, group)))
  {
    var f, current := TagField(st, caller, group, field, caption, init), IssueTag(st, group);
    var options := PutAll(init, TagEntries(field, TagChoices(st, caller, group)));
    var attrs := [E("label", Str(caption)), E("type", Str("radioButton")), E("radios", Arr(options)),
                  E("check", ChoiceId(current))];
    assert f == [E(field, Arr(attrs))];
    LookupAt(f, StrKey(field), 0);
    LookupAt(attrs, StrKey("radios"), 2);
    LookupAt(attrs, StrKey("check"), 3);
  }

  /** When the user cannot view the current tag it is the only option after `init`;
      otherwise every tag of the group is offered, and with distinct labels exactly those
      tags, in order, after `init`. */
  lemma TagFieldOptions(st: FormState, caller: Caller, group: string, field: string, caption: string, init: PhpArray)
    requires TagsReady(st, caller, group)
    ensures var radios, current := Radios(TagField(st, caller, group, field, caption, init), field), IssueTag(st, group);
      && |init| <= |radios| && Keys(radios)[..|init|] == Keys(init)
      && (!caller.canView(current) ==> radios == PutAll(init, [TagEntry(field, current)]))
      && (caller.canView(current) ==> forall t :: t in GroupTags(st.groups, group) ==>
            StrKey(UcWords(t.name)) in Keys(radios))
      && (caller.canView(current) && DistinctLabels(GroupTags(st.groups, group)) && UniqueKeys(init)
          && (forall t :: t in GroupTags(st.groups, group) ==> StrKey(UcWords(t.name)) !in Keys(init)) ==>
            radios == init + TagEntries(field, TagChoices(st, caller, group)))
  {
    TagFieldShape(st, caller, group, field, caption, init);
    var current := IssueTag(st, group);
    var e := TagEntries(field, TagChoices(st, caller, group));
    if caller.canView(current) {
      TagEntriesOptions(st, caller, group, field, init);
    } else {
      assert e == [TagEntry(field, current)];
    }
  }

  lemma TagEntriesOptions(st: FormState, caller: Caller, group: string, field: string, init: PhpArray)
    requires TagsReady(st, caller, group) && caller.canView(IssueTag(st, group))
    ensures var tags, e := GroupTags(st.groups, group), TagEntries(field, TagChoices(st, caller, group));
      && (forall t :: t in tags ==> StrKey(UcWords(t.name)) in Keys(PutAll(init, e)))
      && (DistinctLabels(tags) && UniqueKeys(init) && (forall t :: t in tags ==> StrKey(UcWords(t.name)) !in Keys(init)) ==>
            PutAll(init, e) == init + e)
  {
    var tags, e := GroupTags(st.groups, group), TagEntries(field, TagChoices(st, caller, group));
    var options := PutAll(init, e);
    PutAllKeys(init, e);
    forall t | t in tags ensures StrKey(UcWords(t.name)) in Keys(options) {
      var i :| 0 <= i < |tags| && tags[i] == t;
      assert Keys(e)[i] == StrKey(UcWords(t.name));
    }
    if DistinctLabels(tags) && UniqueKeys(init) && (forall t :: t in tags ==> StrKey(UcWords(t.name)) !in Keys(init)) {
      forall i, j | 0 <= i < j < |e| ensures e[i].0 != e[j].0 {
        assert e[i].0 == StrKey(UcWords(tags[i].name)) && e[j].0 == StrKey(UcWords(tags[j].name));
      }
      forall i | 0 <= i < |e| ensures e[i].0 !in Keys(init) {
        assert e[i].0 == StrKey(UcWords(tags[i].name)) && tags[i] in tags;
      }
      PutAllFresh(init, e);
    }
  }

  // ---------------------------------------------------------------------------
  // Field builders

  function FieldTitle(): PhpArray {
    [E("title", Arr([E("type", Str("text")), E("label", Str("title"))]))]
  }

  function FieldBody(): PhpArray {
    [E("body", Arr([E("type", Str("textarea")), E("label", Str("issue"))]))]
  }

  function FieldTypeTags(st: FormState, caller: Caller): PhpArray
    requires TagsReady(st, caller, "type")
  {
    TagField(st, caller, "type", "tag_type", "type", [])
  }

  function FieldStatusTags(st: FormState, caller: Caller): PhpArray
    requires TagsReady(st, caller, "status")
  {
    TagField(st, caller, "status", "tag_status", "status", [])
  }

  /** The leading "none" option of the resolution field, keyed by `trans('tinyissue.none')`. */
  function NoneResolution(lang: Lang): (Key, Value) {
    (StrKey(lang.text("tinyissue.none")),
     Arr([E("name", Str("tag_resolution")), E("value", Int(0)), E("data-tags", Int(0)), E("color", Str("#62CFFC"))]))
  }

  function FieldResolutionTags(st: FormState, caller: Caller, lang: Lang): PhpArray
    requires TagsReady(st, caller, "resolution")
  {
    TagField(st, caller, "resolution", "tag_resolution", "resolution", [NoneResolution(lang)])
  }

  /** The resolution options start with the "none" entry; it keeps the value 0 unless a
      resolution tag's label equals the translated "none" label, whose option then takes that place. */
  lemma ResolutionStartsWithNone(st: FormState, caller: Caller, lang: Lang)
    requires TagsReady(st, caller, "resolution")
    ensures var radios, none := Radios(FieldResolutionTags(st, caller, lang), "tag_resolution"), NoneResolution(lang);
      var e := TagEntries("tag_resolution", TagChoices(st, caller, "resolution"));
      && |radios| > 0 && radios[0].0 == none.0
      && Lookup(radios, none.0) == (if none.0 in Keys(e) then Latest(e, none.0) else Some(none.1))
  {
    var none := NoneResolution(lang);
    var e := TagEntries("tag_resolution", TagChoices(st, caller, "resolution"));
    TagFieldShape(st, caller, "resolution", "tag_resolution", "resolution", [none]);
    var radios := PutAll([none], e);
    assert Keys(radios)[..1] == Keys([none]);
    assert Keys(radios)[0] == radios[0].0;
    PutAllLookup([none], e, none.0);
    LookupAt([none], none.0, 0);
  }

  /** `(int) $project->default_assignee` */
  function DefaultAssignee(p: Project): int {
    if p.defaultAssignee.Some? then p.defaultAssignee.value else 0
  }

  function FieldAssignedTo(st: FormState): (f: PhpArray)
    ensures Keys(f) == [StrKey("assigned_to")]
  {
    [E("assigned_to", Arr([E("type", Str("select")), E("label", Str("assigned_to")),
                           E("options", Arr(AssigneeOptions(st.project.fixers))),
                           E("value", Int(DefaultAssignee(st.project)))]))]
  }

  /** The assignee select offers the empty choice then the project's fixers, and preselects
      the project's default assignee (0 when it has none). */
  lemma AssignedToContents(st: FormState)
    ensures var field := At(FieldAssignedTo(st), "assigned_to");
      && Sub(field, "type") == Str("select")
      && Sub(field, "options") == Arr(AssigneeOptions(st.project.fixers))
      && Sub(field, "value") == Int(if st.project.defaultAssignee.Some? then st.project.defaultAssignee.value else 0)
  {
    var attrs := [E("type", Str("select")), E("label", Str("assigned_to")),
                  E("options", Arr(AssigneeOptions(st.project.fixers))),
                  E("value", Int(DefaultAssignee(st.project)))];
    LookupAt(FieldAssignedTo(st), StrKey("assigned_to"), 0);
    LookupAt(attrs, StrKey("type"), 0);
    LookupAt(attrs, StrKey("options"), 2);
    LookupAt(attrs, StrKey("value"), 3);
  }

  /** `projectUploadFields(...)`'s result may hold extra fields but none of this form's own
      names, and its `upload` entry, if any, is an array. */
  predicate UploadFieldsOk(upload: PhpArray) {
    && UniqueKeys(upload)
    && (forall i :: 0 <= i < |upload| ==> upload[i].0 !in OWN_FIELDS)
    && (At(upload, "upload").Arr? || At(upload, "upload").Null?)
  }

  /** `$fields['upload']['label'] = 'attachments'` on the fields `projectUploadFields` returns. */
  function FieldUpload(upload: PhpArray): (r: PhpArray)
    requires At(upload, "upload").Arr? || At(upload, "upload").Null?
    ensures Keys(r) == if StrKey("upload") in Keys(upload) then Keys(upload) else Keys(upload) + [StrKey("upload")]
  {
    var attrs := if At(upload, "upload").Arr? then At(upload, "upload").entries else [];
    Put(upload, StrKey("upload"), Arr(Put(attrs, StrKey("label"), Str("attachments"))))
  }

  /** The upload field is labelled "attachments"; its other settings and every other field
      of the upload block are kept as given. */
  lemma UploadLabelled(upload: PhpArray)
    requires At(upload, "upload").Arr? || At(upload, "upload").Null?
    ensures var r := FieldUpload(upload);
      && Sub(At(r, "upload"), "label") == Str("attachments")
      && (forall k :: k != StrKey("upload") ==> Lookup(r, k) == Lookup(upload, k))
      && (At(upload, "upload").Arr? ==> forall k :: k != StrKey("label") ==>
            Lookup(At(r, "upload").entries, k) == Lookup(At(upload, "upload").entries, k))
  {
    var attrs := if At(upload, "upload").Arr? then At(upload, "upload").entries else [];
    var labelled := Put(attrs, StrKey("label"), Str("attachments"));
    PutLookup(attrs, StrKey("label"), Str("attachments"), StrKey("label"));
    PutLookup(upload, StrKey("upload"), Arr(labelled), StrKey("upload"));
    forall k | k != StrKey("upload") ensures Lookup(FieldUpload(upload), k) == Lookup(upload, k) {
      PutLookup(upload, StrKey("upload"), Arr(labelled), k);
    }
    forall k | k != StrKey("label") ensures Lookup(labelled, k) == Lookup(attrs, k) {
      PutLookup(attrs, StrKey("label"), Str("attachments"), k);
    }
  }

  // ---------------------------------------------------------------------------
  // Time quote

  /** PHP's integer conversion of a quotient: truncation toward zero. */
  function TruncDiv(a: int, b: nat): int
    requires b > 0
  {
    if a >= 0 then a / b else -((-a) / b)
  }

  /** PHP's `%`: the remainder takes the sign of the dividend. */
  function TruncMod(a: int, b: nat): int
    requires b > 0
  {
    a - b * TruncDiv(a, b)
  }

  /** `extractQuoteValue($part)`: hours are `floor(seconds / 3600)`, minutes
      `(seconds / 60) % 60`; both 0 when no issue is bound. */
  function ExtractQuoteValue(st: FormState, part: string): int {
    if st.model.Some? then
      var seconds := st.model.value.timeQuote;
      if part == "h" then seconds / 3600
      else if part == "m" then TruncMod(TruncDiv(seconds, 60), 60)
      else 0
    else 0
  }

  lemma {:induction false} QuoteSplit(st: FormState)
    ensures var h, m := ExtractQuoteValue(st, "h"), ExtractQuoteValue(st, "m");
      && (st.model.None? ==> h == 0 && m == 0)
      && (st.model.Some? && st.model.value.timeQuote >= 0 ==>
            var s := st.model.value.timeQuote;
            && h == s / 3600 && m == (s / 60) % 60
            && 0 <= m < 60
            && h * 3600 + m * 60 + s % 60 == s)
  {
    if st.model.Some? && st.model.value.timeQuote >= 0 {
      var s := st.model.value.timeQuote;
      var q, r := s / 60, s % 60;
      var h, m := q / 60, q % 60;
      assert s == 60 * q + r;
      assert q == 60 * h + m;
      assert s == 3600 * h + (60 * m + r);
      assert 0 <= 60 * m + r < 3600;
      assert s / 3600 == h;
    }
  }

  /** The quote group: hours, minutes and, for users who may lock quotes, the lock checkbox;
      left out entirely for other users once the bound issue's quote is locked. */
  function FieldTimeQuote(st: FormState, caller: Caller, lang: Lang): (r: PhpArray)
    ensures r == [] <==> QuoteHidden(st, caller)
    ensures r != [] ==> Keys(r) == [StrKey("time_quote")]
  {
    if QuoteHidden(st, caller) then [] else QuoteGroup(QuoteSubFields(st, caller, lang))
  }

  /** The sub-fields of the quote group, without the lock checkbox for users who may not lock quotes. */
  function QuoteSubFields(st: FormState, caller: Caller, lang: Lang): PhpArray {
    var hours := E("h", QuoteInput(lang.text("tinyissue.hours"), ExtractQuoteValue(st, "h")));
    var minutes := E("m", QuoteInput(lang.text("tinyissue.minutes"), ExtractQuoteValue(st, "m")));
    var lock := E("lock", LockCheckbox(Editing(st) && st.model.value.quoteLocked));
    if caller.lockQuote then [hours, minutes, lock] else Unset([hours, minutes, lock], StrKey("lock"))
  }

  /** The quote group field holding the given sub-fields. */
  function QuoteGroup(parts: PhpArray): (f: PhpArray)
    ensures Keys(f) == [StrKey("time_quote")]
  {
    [E("time_quote", Arr([E("type", Str("groupField")), E("label", Str("quote")), E("fields", Arr(parts)),
                          E("addClass", Str("row issue-quote"))]))]
  }

  lemma QuoteGroupParts(parts: PhpArray)
    ensures QuoteParts(QuoteGroup(parts)) == parts
  {
    var group := [E("type", Str("groupField")), E("label", Str("quote")), E("fields", Arr(parts)),
                  E("addClass", Str("row issue-quote"))];
    LookupAt(QuoteGroup(parts), StrKey("time_quote"), 0);
    LookupAt(group, StrKey("fields"), 2);
  }

  /** The "Lock Quote" checkbox, checked when the bound issue's quote is locked. */
  function LockCheckbox(locked: bool): Value {
    Arr([E("type", Str("checkboxButton")), E("label", Str("")), E("noLabel", Bool(true)),
         E("class", Str("eee")), E("addGroupClass", Str("sss col-sm-12 col-md-12 col-lg-4")),
         E("checkboxes", Arr([LockQuoteBox(locked)])), E("grouped", Bool(true))])
  }

  function LockQuoteBox(locked: bool): (Key, Value) {
    E("Lock Quote", Arr([E("value", Int(1)), E("data-tags", Int(1)), E("color", Str("red")), E("checked", Bool(locked))]))
  }

  lemma LockCheckboxChecked(locked: bool)
    ensures Sub(Sub(Sub(LockCheckbox(locked), "checkboxes"), "Lock Quote"), "checked") == Bool(locked)
  {
    var attrs := [E("type", Str("checkboxButton")), E("label", Str("")), E("noLabel", Bool(true)),
                  E("class", Str("eee")), E("addGroupClass", Str("sss col-sm-12 col-md-12 col-lg-4")),
                  E("checkboxes", Arr([LockQuoteBox(locked)])), E("grouped", Bool(true))];
    assert Keys(attrs)[..5] == [StrKey("type"), StrKey("label"), StrKey("noLabel"), StrKey("class"), StrKey("addGroupClass")];
    LookupAt(attrs, StrKey("checkboxes"), 5);
    LookupAt([LockQuoteBox(locked)], StrKey("Lock Quote"), 0);
    var box := [E("value", Int(1)), E("data-tags", Int(1)), E("color", Str("red")), E("checked", Bool(locked))];
    LookupAt(box, StrKey("checked"), 3);
  }

  /** A number input of the quote group, showing `value` followed by the unit text. */
  function QuoteInput(unit: string, value: int): Value {
    Arr([E("type", Str("number")), E("append", Str(unit)), E("value", Int(value)),
         E("addGroupClass", Str("col-sm-5 col-md-5 col-lg-4"))])
  }

  lemma QuoteInputValue(unit: string, value: int)
    ensures Sub(QuoteInput(unit, value), "value") == Int(value)
  {
    var attrs := [E("type", Str("number")), E("append", Str(unit)), E("value", Int(value)),
                  E("addGroupClass", Str("col-sm-5 col-md-5 col-lg-4"))];
    LookupAt(attrs, StrKey("value"), 2);
  }

  /** The sub-fields of the quote group. */
  function QuoteParts(f: PhpArray): PhpArray {
    var parts := Sub(At(f, "time_quote"), "fields");
    if parts.Arr? then parts.entries else []
  }

  /** A shown quote group holds the hours and minutes of the stored quote, and the lock
      checkbox, checked exactly when the bound issue's quote is locked, only for users who
      may lock quotes. */
  lemma TimeQuoteContents(st: FormState, caller: Caller, lang: Lang)
    requires !QuoteHidden(st, caller)
    ensures var parts := QuoteParts(FieldTimeQuote(st, caller, lang));
      && Sub(At(parts, "h"), "value") == Int(ExtractQuoteValue(st, "h"))
      && Sub(At(parts, "m"), "value") == Int(ExtractQuoteValue(st, "m"))
      && (StrKey("lock") in Keys(parts) <==> caller.lockQuote)
      && (caller.lockQuote ==>
            Sub(Sub(Sub(At(parts, "lock"), "checkboxes"), "Lock Quote"), "checked")
              == Bool(Editing(st) && st.model.value.quoteLocked))
  {
    QuoteGroupParts(QuoteSubFields(st, caller, lang));
    SubFieldsContents(st, caller, lang);
  }

  lemma SubFieldsContents(st: FormState, caller: Caller, lang: Lang)
    ensures var parts := QuoteSubFields(st, caller, lang);
      && Sub(At(parts, "h"), "value") == Int(ExtractQuoteValue(st, "h"))
      && Sub(At(parts, "m"), "value") == Int(ExtractQuoteValue(st, "m"))
      && (StrKey("lock") in Keys(parts) <==> caller.lockQuote)
      && (caller.lockQuote ==>
            Sub(Sub(Sub(At(parts, "lock"), "checkboxes"), "Lock Quote"), "checked")
              == Bool(Editing(st) && st.model.value.quoteLocked))
  {
    var hours := E("h", QuoteInput(lang.text("tinyissue.hours"), ExtractQuoteValue(st, "h")));
    var minutes := E("m", QuoteInput(lang.text("tinyissue.minutes"), ExtractQuoteValue(st, "m")));
    var locked := Editing(st) && st.model.value.quoteLocked;
    var lock := E("lock", LockCheckbox(locked));
    QuoteFieldParts(hours, minutes, lock, caller.lockQuote);
    QuoteInputValue(lang.text("tinyissue.hours"), ExtractQuoteValue(st, "h"));
    QuoteInputValue(lang.text("tinyissue.minutes"), ExtractQuoteValue(st, "m"));
    LockChecked(hours, minutes, locked);
  }

  lemma LockChecked(hours: (Key, Value), minutes: (Key, Value), locked: bool)
    requires hours.0 == StrKey("h") && minutes.0 == StrKey("m")
    ensures Sub(Sub(Sub(At([hours, minutes, E("lock", LockCheckbox(locked))], "lock"), "checkboxes"), "Lock Quote"), "checked")
      == Bool(locked)
  {
    LookupAt([hours, minutes, E("lock", LockCheckbox(locked))], StrKey("lock"), 2);
    LockCheckboxChecked(locked);
  }

  lemma QuoteFieldParts(hours: (Key, Value), minutes: (Key, Value), lock: (Key, Value), withLock: bool)
    requires hours.0 == StrKey("h") && minutes.0 == StrKey("m") && lock.0 == StrKey("lock")
    ensures var parts := if withLock then [hours, minutes, lock] else Unset([hours, minutes, lock], StrKey("lock"));
      && (StrKey("lock") in Keys(parts) <==> withLock)
      && Lookup(parts, StrKey("h")) == Some(hours.1)
      && Lookup(parts, StrKey("m")) == Some(minutes.1)
  {
    var all := [hours, minutes, lock];
    var some := [hours, minutes];
    assert all[1..] == [minutes, lock] && [minutes, lock][1..] == [lock] && [lock][1..] == [];
    assert Unset([lock], StrKey("lock")) == [];
    assert Unset([minutes, lock], StrKey("lock")) == [minutes];
    assert Unset(all, StrKey("lock")) == some;
    LookupAt(all, StrKey("h"), 0);
    LookupAt(all, StrKey("m"), 1);
    LookupAt(some, StrKey("h"), 0);
    LookupAt(some, StrKey("m"), 1);
    assert Keys(all)[2] == StrKey("lock");
    assert Keys(some) == [StrKey("h"), StrKey("m")];
  }

  // ---------------------------------------------------------------------------
  // The form

  /** Field reads of `fields()` need the tag groups it touches and a well-formed upload block. */
  predicate FieldsReady(st: FormState, caller: Caller, upload: PhpArray) {
    && TagsReady(st, caller, "type")
    && (caller.issueModify ==> TagsReady(st, caller, "status") && TagsReady(st, caller, "resolution"))
    && (!Editing(st) ==> UploadFieldsOk(upload))
  }

  /** `issueModifyFields()` */
  function IssueModifyFields(st: FormState, caller: Caller, lang: Lang): PhpArray
    requires TagsReady(st, caller, "status") && TagsReady(st, caller, "resolution")
  {
    Union(ModifyHead(st, caller, lang), FieldResolutionTags(st, caller, lang))
  }

  /** `fields()`; `upload` is what `projectUploadFields('upload', ...)` returns. */
  function Fields(st: FormState, caller: Caller, lang: Lang, upload: PhpArray): PhpArray
    requires FieldsReady(st, caller, upload)
  {
    var fields := FieldsWithUpload(st, caller, upload);
    if caller.issueModify then Union(fields, IssueModifyFields(st, caller, lang)) else fields
  }

  /** Title, body and type tags. */
  function FieldsHead(st: FormState, caller: Caller): (f: PhpArray)
    requires TagsReady(st, caller, "type")
    ensures Keys(f) == [StrKey("title"), StrKey("body"), StrKey("tag_type")] && UniqueKeys(f)
  {
    var title, body, typeTags := FieldTitle(), FieldBody(), FieldTypeTags(st, caller);
    HeadNamesDistinct();
    UnionDisjoint(title, body);
    UnionDisjoint(title + body, typeTags);
    Union(Union(title, body), typeTags)
  }

  lemma HeadNamesDistinct()
    ensures Keys(FieldTitle()) == [StrKey("title")] && Keys(FieldBody()) == [StrKey("body")]
    ensures UniqueKeys(FieldTitle()) && UniqueKeys(FieldBody())
    ensures StrKey("title") != StrKey("body") && StrKey("title") != StrKey("tag_type") && StrKey("body") != StrKey("tag_type")
  {
  }

  /** The head, then the upload block when creating. */
  function FieldsWithUpload(st: FormState, caller: Caller, upload: PhpArray): (f: PhpArray)
    requires TagsReady(st, caller, "type") && (!Editing(st) ==> UploadFieldsOk(upload))
    ensures Keys(f) == [StrKey("title"), StrKey("body"), StrKey("tag_type")]
                       + (if Editing(st) then [] else Keys(FieldUpload(upload)))
    ensures UniqueKeys(f)
  {
    var head := FieldsHead(st, caller);
    if Editing(st) then head
    else
      var u := FieldUpload(upload);
      UploadBlockFresh(upload, Keys(head));
      UnionDisjoint(head, u);
      Union(head, u)
  }

  /** The upload block's keys are unique and none of them is one of the form's own names. */
  lemma UploadBlockFresh(upload: PhpArray, head: seq<Key>)
    requires UploadFieldsOk(upload)
    requires head == [StrKey("title"), StrKey("body"), StrKey("tag_type")]
    ensures UniqueKeys(FieldUpload(upload))
    ensures forall k :: k in Keys(FieldUpload(upload)) ==> k !in head && k !in OWN_FIELDS
  {
    var u := FieldUpload(upload);
    forall k | k in Keys(u) ensures k !in head && k !in OWN_FIELDS {
      if k != StrKey("upload") {
        var i :| 0 <= i < |upload| && Keys(upload)[i] == k;
      }
    }
    forall i, j | 0 <= i < j < |u| ensures u[i].0 != u[j].0 {
      assert Keys(u)[i] == u[i].0 && Keys(u)[j] == u[j].0;
      assert Keys(upload)[i] == upload[i].0;
      if j < |upload| {
        assert Keys(upload)[j] == upload[j].0;
      }
    }
  }

  /** Whether the quote group is left out: no lock permission, editing, and the quote locked. */
  predicate QuoteHidden(st: FormState, caller: Caller) {
    !caller.lockQuote && Editing(st) && st.model.value.quoteLocked
  }

  function ModifyKeys(st: FormState, caller: Caller): seq<Key> {
    [StrKey("internal_status"), StrKey("tag_status"), StrKey("assigned_to")]
      + (if QuoteHidden(st, caller) then [] else [StrKey("time_quote")])
      + [StrKey("tag_resolution")]
  }

  lemma SingleKey(name: string, v: Value)
    ensures Keys([E(name, v)]) == [StrKey(name)]
    ensures UniqueKeys([E(name, v)])
  {
  }

  lemma IssueModifyFieldsOrder(st: FormState, caller: Caller, lang: Lang)
    requires TagsReady(st, caller, "status") && TagsReady(st, caller, "resolution")
    ensures Keys(IssueModifyFields(st, caller, lang)) == ModifyKeys(st, caller)
    ensures UniqueKeys(IssueModifyFields(st, caller, lang))
  {
    var f3 := ModifyHead(st, caller, lang);
    var resolution := FieldResolutionTags(st, caller, lang);
    HeadKeysDisjoint(QuoteHidden(st, caller), Keys(f3), Keys(resolution));
    UnionDisjoint(f3, resolution);
  }

  lemma HeadKeysDisjoint(hidden: bool, head: seq<Key>, tail: seq<Key>)
    requires head == [StrKey("internal_status"), StrKey("tag_status"), StrKey("assigned_to")]
                     + (if hidden then [] else [StrKey("time_quote")])
    requires tail == [StrKey("tag_resolution")]
    ensures forall k :: k in tail ==> k !in head
  {
  }

  /** The internal block up to the quote group. */
  function ModifyHead(st: FormState, caller: Caller, lang: Lang): (f: PhpArray)
    requires TagsReady(st, caller, "status")
    ensures Keys(f) == [StrKey("internal_status"), StrKey("tag_status"), StrKey("assigned_to")]
                       + (if QuoteHidden(st, caller) then [] else [StrKey("time_quote")])
    ensures UniqueKeys(f)
  {
    var legend := [E("internal_status", Arr([E("type", Str("legend"))]))];
    var status := FieldStatusTags(st, caller);
    var assignee := FieldAssignedTo(st);
    var quote := FieldTimeQuote(st, caller, lang);
    assert Keys(legend) == [StrKey("internal_status")];
    ModifyNamesDistinct();
    UnionChain(legend, status, assignee, quote, StrKey("internal_status"), StrKey("tag_status"), StrKey("assigned_to"));
    Union(Union(Union(legend, status), assignee), quote)
  }

  lemma ModifyNamesDistinct()
    ensures StrKey("internal_status") != StrKey("tag_status") && StrKey("internal_status") != StrKey("assigned_to")
    ensures StrKey("tag_status") != StrKey("assigned_to")
    ensures forall k :: k in [StrKey("time_quote")] ==>
      k != StrKey("internal_status") && k != StrKey("tag_status") && k != StrKey("assigned_to")
  {
  }

  /** Three single-entry arrays with distinct keys, then an array with at most one further key. */
  lemma UnionChain(a: PhpArray, b: PhpArray, c: PhpArray, d: PhpArray, ka: Key, kb: Key, kc: Key)
    requires Keys(a) == [ka] && Keys(b) == [kb] && Keys(c) == [kc] && |Keys(d)| <= 1
    requires ka != kb && ka != kc && kb != kc
    requires forall k :: k in Keys(d) ==> k != ka && k != kb && k != kc
    ensures Union(Union(Union(a, b), c), d) == a + b + c + d
    ensures Keys(Union(Union(Union(a, b), c), d)) == [ka, kb, kc] + Keys(d)
    ensures UniqueKeys(Union(Union(Union(a, b), c), d))
  {
    UnionDisjoint(a, b);
    assert Keys(a + b) == [ka, kb];
    UnionDisjoint(a + b, c);
    assert Keys(a + b + c) == [ka, kb, kc];
    UnionDisjoint(a + b + c, d);
  }

  /** Each internal field of `issueModifyFields()` is the entry its builder makes (a hidden
      quote group reads as null in both). */
  lemma ModifyLookup(st: FormState, caller: Caller, lang: Lang)
    requires TagsReady(st, caller, "status") && TagsReady(st, caller, "resolution")
    ensures var m := IssueModifyFields(st, caller, lang);
      && At(m, "tag_status") == At(FieldStatusTags(st, caller), "tag_status")
      && At(m, "assigned_to") == At(FieldAssignedTo(st), "assigned_to")
      && At(m, "time_quote") == At(FieldTimeQuote(st, caller, lang), "time_quote")
      && At(m, "tag_resolution") == At(FieldResolutionTags(st, caller, lang), "tag_resolution")
  {
    var legend := [E("internal_status", Arr([E("type", Str("legend"))]))];
    ModifyConcat(st, caller, lang);
    assert Keys(legend) == [StrKey("internal_status")];
    ChainLookup(legend, FieldStatusTags(st, caller), FieldAssignedTo(st), FieldTimeQuote(st, caller, lang),
                FieldResolutionTags(st, caller, lang));
  }

  /** `issueModifyFields()` is the concatenation of its parts, their keys being distinct. */
  lemma ModifyConcat(st: FormState, caller: Caller, lang: Lang)
    requires TagsReady(st, caller, "status") && TagsReady(st, caller, "resolution")
    ensures IssueModifyFields(st, caller, lang) ==
      [E("internal_status", Arr([E("type", Str("legend"))]))] + FieldStatusTags(st, caller) + FieldAssignedTo(st)
      + FieldTimeQuote(st, caller, lang) + FieldResolutionTags(st, caller, lang)
  {
    var legend := [E("internal_status", Arr([E("type", Str("legend"))]))];
    var status, assignee := FieldStatusTags(st, caller), FieldAssignedTo(st);
    var quote, resolution := FieldTimeQuote(st, caller, lang), FieldResolutionTags(st, caller, lang);
    assert Keys(legend) == [StrKey("internal_status")];
    ModifyNamesDistinct();
    UnionChain(legend, status, assignee, quote, StrKey("internal_status"), StrKey("tag_status"), StrKey("assigned_to"));
    var head := ModifyHead(st, caller, lang);
    HeadKeysDisjoint(QuoteHidden(st, caller), Keys(head), Keys(resolution));
    UnionDisjoint(head, resolution);
  }

  /** Lookups in a chain of single-entry parts (the quote part possibly empty). */
  lemma ChainLookup(legend: PhpArray, status: PhpArray, assignee: PhpArray, quote: PhpArray, resolution: PhpArray)
    requires Keys(legend) == [StrKey("internal_status")] && Keys(status) == [StrKey("tag_status")]
    requires Keys(assignee) == [StrKey("assigned_to")] && Keys(resolution) == [StrKey("tag_resolution")]
    requires quote == [] || Keys(quote) == [StrKey("time_quote")]
    ensures var m := legend + status + assignee + quote + resolution;
      && Lookup(m, StrKey("tag_status")) == Lookup(status, StrKey("tag_status"))
      && Lookup(m, StrKey("assigned_to")) == Lookup(assignee, StrKey("assigned_to"))
      && Lookup(m, StrKey("time_quote")) == Lookup(quote, StrKey("time_quote"))
      && Lookup(m, StrKey("tag_resolution")) == Lookup(resolution, StrKey("tag_resolution"))
  {
    var m := legend + status + assignee + quote + resolution;
    KeysAppend(legend, status);
    KeysAppend(legend + status, assignee);
    KeysAppend(legend + status + assignee, quote);
    LookupMiddle(legend, status, assignee + quote + resolution, StrKey("tag_status"));
    assert m == legend + status + (assignee + quote + resolution);
    LookupMiddle(legend + status, assignee, quote + resolution, StrKey("assigned_to"));
    assert m == legend + status + assignee + (quote + resolution);
    if quote != [] {
      LookupMiddle(legend + status + assignee, quote, resolution, StrKey("time_quote"));
    } else {
      KeysAppend(legend + status + assignee + quote, resolution);
      assert StrKey("time_quote") !in Keys(m);
    }
    LookupSuffix(legend + status + assignee + quote, resolution, StrKey("tag_resolution"));
  }

  /** With the issue-modify permission, the form's internal fields are those of
      `issueModifyFields()`. */
  lemma FieldsInternalLookup(st: FormState, caller: Caller, lang: Lang, upload: PhpArray, k: Key)
    requires FieldsReady(st, caller, upload) && caller.issueModify && k in INTERNAL_FIELDS
    ensures Lookup(Fields(st, caller, lang, upload), k) == Lookup(IssueModifyFields(st, caller, lang), k)
  {
    var f := FieldsWithUpload(st, caller, upload);
    FieldsConcat(st, caller, lang, upload);
    var uploadKeys := if Editing(st) then [] else Keys(FieldUpload(upload));
    if !Editing(st) {
      UploadBlockFresh(upload, [StrKey("title"), StrKey("body"), StrKey("tag_type")]);
    }
    InternalNotInHead(Keys(f), uploadKeys, k);
    LookupSuffix(f, IssueModifyFields(st, caller, lang), k);
  }

  /** With the issue-modify permission, the form is the head (with the upload block when
      creating) followed by the internal block. */
  lemma FieldsConcat(st: FormState, caller: Caller, lang: Lang, upload: PhpArray)
    requires FieldsReady(st, caller, upload) && caller.issueModify
    ensures Fields(st, caller, lang, upload) == FieldsWithUpload(st, caller, upload) + IssueModifyFields(st, caller, lang)
  {
    var f, m := FieldsWithUpload(st, caller, upload), IssueModifyFields(st, caller, lang);
    var uploadKeys := if Editing(st) then [] else Keys(FieldUpload(upload));
    if !Editing(st) {
      UploadBlockFresh(upload, [StrKey("title"), StrKey("body"), StrKey("tag_type")]);
    }
    IssueModifyFieldsOrder(st, caller, lang);
    ModifyKeysFresh(st, caller, uploadKeys, Keys(f));
    UnionDisjoint(f, m);
  }

  lemma InternalNotInHead(keys: seq<Key>, uploadKeys: seq<Key>, k: Key)
    requires keys == [StrKey("title"), StrKey("body"), StrKey("tag_type")] + uploadKeys
    requires forall u :: u in uploadKeys ==> u !in OWN_FIELDS
    requires k in INTERNAL_FIELDS
    ensures k !in keys
  {
    assert k in OWN_FIELDS;
  }

  /** The contents stated for the internal builders hold on the whole form: the status and
      resolution radios, the assignee select and the quote group are the builders' entries. */
  lemma FieldsInternalContents(st: FormState, caller: Caller, lang: Lang, upload: PhpArray)
    requires FieldsReady(st, caller, upload) && caller.issueModify
    ensures var f := Fields(st, caller, lang, upload);
      && At(f, "tag_status") == At(FieldStatusTags(st, caller), "tag_status")
      && At(f, "assigned_to") == At(FieldAssignedTo(st), "assigned_to")
      && At(f, "time_quote") == At(FieldTimeQuote(st, caller, lang), "time_quote")
      && At(f, "tag_resolution") == At(FieldResolutionTags(st, caller, lang), "tag_resolution")
  {
    ModifyLookup(st, caller, lang);
    FieldsInternalLookup(st, caller, lang, upload, StrKey("tag_status"));
    FieldsInternalLookup(st, caller, lang, upload, StrKey("assigned_to"));
    FieldsInternalLookup(st, caller, lang, upload, StrKey("time_quote"));
    FieldsInternalLookup(st, caller, lang, upload, StrKey("tag_resolution"));
  }

  /** The form's type radios are the type builder's entry, and, when creating, its upload
      field is the one `FieldUpload` labels. */
  lemma FieldsHeadContents(st: FormState, caller: Caller, lang: Lang, upload: PhpArray)
    requires FieldsReady(st, caller, upload)
    ensures var f := Fields(st, caller, lang, upload);
      && At(f, "tag_type") == At(FieldTypeTags(st, caller), "tag_type")
      && (!Editing(st) ==> At(f, "upload") == At(FieldUpload(upload), "upload"))
  {
    var fw := FieldsWithUpload(st, caller, upload);
    HeadLookup(st, caller, upload);
    if caller.issueModify {
      FieldsConcat(st, caller, lang, upload);
      LookupPrefix(fw, IssueModifyFields(st, caller, lang), StrKey("tag_type"));
      if !Editing(st) {
        LookupPrefix(fw, IssueModifyFields(st, caller, lang), StrKey("upload"));
      }
    }
  }

  lemma HeadLookup(st: FormState, caller: Caller, upload: PhpArray)
    requires TagsReady(st, caller, "type") && (!Editing(st) ==> UploadFieldsOk(upload))
    ensures var fw := FieldsWithUpload(st, caller, upload);
      && StrKey("tag_type") in Keys(fw)
      && Lookup(fw, StrKey("tag_type")) == Lookup(FieldTypeTags(st, caller), StrKey("tag_type"))
      && (!Editing(st) ==>
            StrKey("upload") in Keys(fw) && Lookup(fw, StrKey("upload")) == Lookup(FieldUpload(upload), StrKey("upload")))
  {
    var title, body, typeTags := FieldTitle(), FieldBody(), FieldTypeTags(st, caller);
    HeadNamesDistinct();
    UnionDisjoint(title, body);
    UnionDisjoint(title + body, typeTags);
    var head := FieldsHead(st, caller);
    LookupSuffix(title + body, typeTags, StrKey("tag_type"));
    if !Editing(st) {
      var u := FieldUpload(upload);
      UploadBlockFresh(upload, Keys(head));
      UnionDisjoint(head, u);
      LookupPrefix(head, u, StrKey("tag_type"));
      assert StrKey("upload") in Keys(u);
      LookupSuffix(head, u, StrKey("upload"));
    }
  }

  /** The fields come as title, body, type tags, then the upload block only when creating,
      then the internal block only for users with the issue-modify permission. */
  lemma FieldsOrder(st: FormState, caller: Caller, lang: Lang, upload: PhpArray)
    requires FieldsReady(st, caller, upload)
    ensures Keys(Fields(st, caller, lang, upload)) ==
      [StrKey("title"), StrKey("body"), StrKey("tag_type")]
      + (if Editing(st) then [] else Keys(FieldUpload(upload)))
      + (if caller.issueModify then ModifyKeys(st, caller) else [])
  {
    var f := FieldsWithUpload(st, caller, upload);
    if caller.issueModify {
      var m := IssueModifyFields(st, caller, lang);
      IssueModifyFieldsOrder(st, caller, lang);
      var uploadKeys := if Editing(st) then [] else Keys(FieldUpload(upload));
      if !Editing(st) {
        UploadBlockFresh(upload, [StrKey("title"), StrKey("body"), StrKey("tag_type")]);
      }
      ModifyKeysFresh(st, caller, uploadKeys, Keys(f));
      UnionDisjoint(f, m);
    }
  }

  lemma ModifyKeysFresh(st: FormState, caller: Caller, uploadKeys: seq<Key>, keys: seq<Key>)
    requires forall k :: k in uploadKeys ==> k !in OWN_FIELDS
    requires keys == [StrKey("title"), StrKey("body"), StrKey("tag_type")] + uploadKeys
    ensures forall k :: k in ModifyKeys(st, caller) ==> k !in keys
  {
    forall k | k in ModifyKeys(st, caller) ensures k !in keys {
      assert k in OWN_FIELDS;
    }
  }

  /** The upload field is present exactly when a new issue is being created. */
  lemma UploadOnlyWhenCreating(st: FormState, caller: Caller, lang: Lang, upload: PhpArray)
    requires FieldsReady(st, caller, upload)
    ensures StrKey("upload") in Keys(Fields(st, caller, lang, upload)) <==> !Editing(st)
  {
    FieldsOrder(st, caller, lang, upload);
    var uploadKeys := if Editing(st) then [] else Keys(FieldUpload(upload));
    assert !Editing(st) ==> StrKey("upload") in uploadKeys;
    UploadPresence(st, caller, Keys(Fields(st, caller, lang, upload)), uploadKeys);
  }

  lemma UploadPresence(st: FormState, caller: Caller, keys: seq<Key>, uploadKeys: seq<Key>)
    requires keys == [StrKey("title"), StrKey("body"), StrKey("tag_type")] + uploadKeys
                     + (if caller.issueModify then ModifyKeys(st, caller) else [])
    ensures StrKey("upload") in keys <==> StrKey("upload") in uploadKeys
  {
  }

  /** The internal fields. */
  const INTERNAL_FIELDS: set<Key> := {
    StrKey("internal_status"), StrKey("tag_status"), StrKey("assigned_to"), StrKey("time_quote"), StrKey("tag_resolution")
  }

  /** Without the issue-modify permission none of the internal fields appear; with it, all of
      them do, the quote group unless it is hidden. */
  lemma InternalFieldsNeedPermission(st: FormState, caller: Caller, lang: Lang, upload: PhpArray)
    requires FieldsReady(st, caller, upload)
    ensures var keys := Keys(Fields(st, caller, lang, upload));
      && (!caller.issueModify ==> forall k :: k in keys ==> k !in INTERNAL_FIELDS)
      && (caller.issueModify ==> forall k :: k in INTERNAL_FIELDS - {StrKey("time_quote")} ==> k in keys)
      && (caller.issueModify ==> (StrKey("time_quote") in keys <==> !QuoteHidden(st, caller)))
  {
    FieldsOrder(st, caller, lang, upload);
    var keys := Keys(Fields(st, caller, lang, upload));
    var uploadKeys := if Editing(st) then [] else Keys(FieldUpload(upload));
    if !Editing(st) {
      UploadBlockFresh(upload, [StrKey("title"), StrKey("body"), StrKey("tag_type")]);
    }
    InternalPresence(st, caller, keys, uploadKeys);
  }

  lemma InternalPresence(st: FormState, caller: Caller, keys: seq<Key>, uploadKeys: seq<Key>)
    requires keys == [StrKey("title"), StrKey("body"), StrKey("tag_type")] + uploadKeys
                     + (if caller.issueModify then ModifyKeys(st, caller) else [])
    requires forall u :: u in uploadKeys ==> u !in OWN_FIELDS
    ensures !caller.issueModify ==> forall k :: k in keys ==> k !in INTERNAL_FIELDS
    ensures caller.issueModify ==> forall k :: k in INTERNAL_FIELDS - {StrKey("time_quote")} ==> k in keys
    ensures caller.issueModify ==> (StrKey("time_quote") in keys <==> !QuoteHidden(st, caller))
  {
    assert forall k :: k in INTERNAL_FIELDS ==> k in OWN_FIELDS;
  }

  /** `actions()`: submit always; delete only when editing and the line-98 guard holds. */
  function Actions(st: FormState, caller: Caller, lang: Lang): (r: PhpArray)
    ensures Keys(r) == if Editing(st) && caller.deleteGuard then [StrKey("submit"), StrKey("delete")] else [StrKey("submit")]
  {
    var actions := [E("submit", Str(if Editing(st) then "update_issue" else "create_issue"))];
    if Editing(st) && caller.deleteGuard then Put(actions, StrKey("delete"), DeleteAction(st, lang)) else actions
  }

  function DeleteAction(st: FormState, lang: Lang): Value
    requires Editing(st)
  {
    Arr([E("type", Str("danger_submit")),
         E("label", Str(lang.named("tinyissue.delete_something", "#" + NatToString(st.model.value.id)))),
         E("class", Str("close-issue")), E("name", Str("delete-issue")),
         E("data-message", Str(lang.text("tinyissue.delete_issue_confirm")))])
  }

  /** The submit button updates an edited issue and creates a new one; the delete button,
      when present, is a danger button naming the issue as `#<id>`. */
  lemma ActionsContents(st: FormState, caller: Caller, lang: Lang)
    ensures var r := Actions(st, caller, lang);
      && At(r, "submit") == Str(if Editing(st) then "update_issue" else "create_issue")
      && (StrKey("delete") in Keys(r) ==>
            && Sub(At(r, "delete"), "type") == Str("danger_submit")
            && Sub(At(r, "delete"), "label") == Str(lang.named("tinyissue.delete_something", "#" + NatToString(st.model.value.id))))
  {
    var actions := [E("submit", Str(if Editing(st) then "update_issue" else "create_issue"))];
    LookupAt(actions, StrKey("submit"), 0);
    if Editing(st) && caller.deleteGuard {
      var delete := DeleteAction(st, lang);
      PutLookup(actions, StrKey("delete"), delete, StrKey("submit"));
      PutLookup(actions, StrKey("delete"), delete, StrKey("delete"));
      LookupAt(delete.entries, StrKey("type"), 0);
      LookupAt(delete.entries, StrKey("label"), 1);
    }
  }

  /** `rules()`, the same in both modes. */
  function Rules(): PhpArray {
    [E("title", Str("required|max:200")), E("body", Str("required"))]
  }

  /** Every rule names a field the form shows, whatever the mode and permissions. */
  lemma RulesNameFields(st: FormState, caller: Caller, lang: Lang, upload: PhpArray)
    requires FieldsReady(st, caller, upload)
    ensures forall k :: k in Keys(Rules()) ==> k in Keys(Fields(st, caller, lang, upload))
  {
    FieldsOrder(st, caller, lang, upload);
    assert Keys(Rules()) == [StrKey("title"), StrKey("body")];
  }

  /** `getRedirectUrl()`: the issue's edit URL when editing, else the project's new-issue page. */
  function RedirectUrl(st: FormState): string {
    if Editing(st) then st.model.value.editUrl
    else Join(["project", NatToString(st.project.id), "issue", "new"])
  }

  /** After creating, the redirect is the four-segment new-issue path of the project it came
      from; after editing, the issue's own edit page. */
  lemma RedirectNamesProject(st: FormState)
    ensures Editing(st) ==> RedirectUrl(st) == st.model.value.editUrl
    ensures !Editing(st) ==>
      var segments := Split(RedirectUrl(st));
      && segments == ["project", NatToString(st.project.id), "issue", "new"]
      && ParseDigits(segments[1]) == st.project.id
  {
    if !Editing(st) {
      NewIssuePath(NatToString(st.project.id));
      ParseNatToString(st.project.id);
    }
  }

  lemma NewIssuePath(id: string)
    requires forall i :: 0 <= i < |id| ==> IsDigit(id[i])
    ensures Split(Join(["project", id, "issue", "new"])) == ["project", id, "issue", "new"]
  {
    assert '/' !in id by {
      forall i | 0 <= i < |id| ensures id[i] != '/' {
        assert IsDigit(id[i]);
      }
    }
    SplitJoin(["project", id, "issue", "new"]);
  }

  // ---------------------------------------------------------------------------
  // The form object

  /** What `setup` receives: the project and, when editing, the issue. */
  datatype SetupParams = SetupParams(project: Project, issue: Option<Issue>)

  /** The form object: `setup` binds the project and the issue being edited, and
      `getTags` loads the tag groups once and keeps them. */
  class IssueFormObject {
    var project: Option<Project>
    var model: Option<Issue>
    var tags: Option<seq<TagGroup>>
    /** What `getGroupTags()` returns from the database. */
    const groupTags: seq<TagGroup>

    ghost predicate Valid()
      reads this
    {
      tags.Some? ==> tags.value == groupTags
    }

    constructor (groupTags: seq<TagGroup>)
      ensures Valid() && project == None && model == None && tags == None && this.groupTags == groupTags
    {
      this.groupTags := groupTags;
      project := None;
      model := None;
      tags := None;
    }

    /** `setup($params)`: a missing or empty issue leaves the form as it was (creating, unless
        an issue was bound before). */
    method Setup(params: SetupParams)
      modifies this`project, this`model
      ensures project == Some(params.project)
      ensures model == if params.issue.Some? then params.issue else old(model)
    {
      project := Some(params.project);
      if params.issue.Some? {
        model := params.issue;
      }
    }

    /** `getTags($type)`: loads the groups on first use, then answers from the loaded copy.
        The database is not modelled to change between calls (`groupTags` is fixed), so the
        memo changes no answer: every call returns the same group as a fresh load would. */
    method GetTags(group: string) returns (r: seq<Tag>)
      requires Valid() && group in GroupNames(groupTags)
      modifies this`tags
      ensures Valid() && tags == Some(groupTags)
      ensures r == GroupTags(groupTags, group)
    {
      if tags.None? {
        tags := Some(groupTags);
      }
      r := GroupTags(tags.value, group);
    }

    /** The state the field, action and redirect functions read. */
    function State(): FormState
      reads this
      requires project.Some?
    {
      FormState(project.value, model, groupTags)
    }
  }
}
