# Tinyissue forms, attachments and user records in Dafny

Tinyissue is a small PHP issue tracker. This project models four parts of it and proves
properties of the model:

- the add/edit **issue form** (`app/Form/Issue.php`). This covers its fields, which depend on
  create vs edit mode and on the caller's permissions. It also covers the tag radio groups,
  the time-quote group, the actions, the validation rules and the redirect target;
- the add/edit **project form** (`app/Form/Project.php`), including the kanban-column
  checkboxes;
- the **attachment record** (`app/Model/Project/Issue/Attachment.php`). This covers upload
  and removal of pending attachments, their files on the local disk, the image check and
  the download/display URLs;
- the **user CRUD trait** (`app/Model/Traits/User/CrudTrait.php`). This covers user
  creation, soft delete, settings and password updates, and per-project message settings.

The files:

- `php.dfy` (module `Php`) holds the PHP semantics the forms rely on.
  - A PHP array is an ordered sequence of key/value pairs.
  - `$a + $b` is `Union`, which keeps the left value of a shared key.
  - `$a[$k] = $v` is `Put`. An existing key keeps its position.
  - A `foreach` of assignments is `PutAll`, where the last write wins.
  - `unset` is `Unset`.
  - The module also defines truthiness, decimal strings, `ucwords`, ASCII case mapping,
    and splitting and joining on `/`.
- `form_common.dfy` holds what both forms share: tags, translations, and the
  `[0 => ''] + users` option list.
- `issue_form.dfy`, `project_form.dfy`, `attachment.dfy` and `user_crud.dfy` hold one module
  per source file.

The form builders are pure functions from the form's state to the returned array. The
stateful parts are classes whose methods have `modifies` clauses:

- the issue form's `setup` and its memoised `getTags`;
- the attachment record and the attachments table;
- the local disk;
- the user record and the project-membership table.

`updateMessagesSettings` is a loop over the membership rows. It is proved against the
function `MessagesApplied`.

## Model

| member | source | states |
|---|---|---|
| Php.UnionKeys | app/Form/Issue.php:118-131 | `$a += $b` keeps every key of `$a` in place and adds each key of `$b` not yet present; no other key appears |
| Php.UnionLeftBiased | app/Form/Issue.php:118-131 | on a key both arrays hold, `+` keeps the left-hand value |
| Php.UnionDisjoint | app/Form/Issue.php:118-131 | when the keys are unique and disjoint, `+` is concatenation in order |
| Php.PutLookup | app/Form/Project.php:72-88 | after `$a[$k] = $v`, `$k` reads `$v` and every other key reads as before |
| Php.PutAllKeys | app/Form/Project.php:121-128 | a `foreach` of assignments keeps the earlier keys first and adds exactly the written keys |
| Php.PutAllLookup | app/Form/Issue.php:286-293 | after a `foreach` of assignments, a written key holds its last written value; other keys are unchanged |
| Php.PutAllFresh | app/Form/Issue.php:209-216 | assigning distinct new keys appends the entries in order |
| FormCommon.AssigneeOptions | app/Form/Issue.php:316 | `[0 => ''] + lists('fullname','id')` starts with the empty choice, holds every fixer's id and no other key |
| FormCommon.AssigneeOptionsDistinct | app/Form/Project.php:87 | with distinct non-zero user ids the options are the empty choice followed by the users in query order |
| IssueForm.IssueFormObject.GetTags | app/Form/Issue.php:42-53 | loads the tag groups on the first call only and returns the tags of the named group |
| IssueForm.IssueFormObject.Setup | app/Form/Issue.php:81-87 | binds the project; binds the issue only when one is given |
| IssueForm.LastWithParent | app/Form/Issue.php:65-69 | `where('parent_id', …)` is empty exactly when no tag has that parent; its last element is the last tag with that parent |
| IssueForm.IssueTagIsLastOfGroup | app/Form/Issue.php:62-74 | creating gives a new empty tag; editing gives the issue's last tag in the group's parent, or a new tag when there is none |
| IssueForm.TagChoices | app/Form/Issue.php:200-209 | every offered tag is the issue's current tag or a tag of the field's group; on an existing issue at least one tag is offered; a current tag the user cannot view is offered alone, otherwise the group's tags are offered in order |
| IssueForm.TagField | app/Form/Issue.php:218-225 | a tag field is a single entry named after the field |
| IssueForm.TagFieldShape | app/Form/Issue.php:209-225 | the field checks the current tag's id, and its radios are the initial options updated, one offered tag after the other, under the key `ucwords(name)`; a later tag with the same label overwrites an earlier one, so there is one radio per distinct label |
| IssueForm.TagFieldOptions | app/Form/Issue.php:198-225 | the initial options come first; a hidden current tag is the only added option; otherwise every group tag's label is an option; with distinct labels the options are exactly the tags in order |
| IssueForm.TagEntriesOptions | app/Form/Issue.php:244-251 | every group tag's label is an option; with distinct labels that avoid the initial keys, the options are the initial ones followed by the tags |
| IssueForm.ResolutionStartsWithNone | app/Form/Issue.php:277-293 | the first resolution option is the translated "none" entry; it keeps value 0 unless a tag with the same label overwrites it |
| IssueForm.FieldAssignedTo | app/Form/Issue.php:310-320 | the assignee field is a single entry `assigned_to` |
| IssueForm.AssignedToContents | app/Form/Issue.php:310-320 | the assignee select offers the assignee options and preselects the default assignee cast to int (0 when unset) |
| IssueForm.FieldUpload | app/Form/Issue.php:327-334 | the upload block keeps the keys `projectUploadFields` gave and has an `upload` entry |
| IssueForm.UploadLabelled | app/Form/Issue.php:327-334 | the upload field's label becomes "attachments"; every other field and every other setting of the upload field is kept |
| IssueForm.QuoteSplit | app/Form/Issue.php:426-440 | with no issue both parts are 0; for a stored quote s ≥ 0, hours = ⌊s/3600⌋, minutes = (s/60) mod 60 within 0..59, and hours·3600 + minutes·60 + s mod 60 = s |
| IssueForm.FieldTimeQuote | app/Form/Issue.php:341-392 | the quote group is absent exactly when the user may not lock quotes and the edited issue's quote is locked; otherwise it is the single entry `time_quote` |
| IssueForm.TimeQuoteContents | app/Form/Issue.php:341-392 | a shown quote group holds the stored hours and minutes; the lock checkbox is present exactly for users who may lock quotes and is checked exactly when the edited issue's quote is locked |
| IssueForm.SubFieldsContents | app/Form/Issue.php:347-384 | the hour and minute inputs show the extracted values; the lock entry survives the `unset` exactly with the lock permission |
| IssueForm.LockCheckboxChecked | app/Form/Issue.php:366-373 | the "Lock Quote" checkbox's `checked` is the locked flag it was built with |
| IssueForm.QuoteFieldParts | app/Form/Issue.php:382-384 | `unset($fields['time_quote']['fields']['lock'])` removes the lock and keeps the hour and minute inputs |
| IssueForm.FieldsHead | app/Form/Issue.php:117-120 | title, body and type tags come first, in that order, with distinct keys |
| IssueForm.FieldsWithUpload | app/Form/Issue.php:117-125 | the upload block follows the head only when creating |
| IssueForm.ModifyHead | app/Form/Issue.php:144-155 | the internal block begins with the `internal_status` legend, the status tags and the assignee, then the quote group if it is shown |
| IssueForm.IssueModifyFieldsOrder | app/Form/Issue.php:140-161 | the internal block's keys are `internal_status`, `tag_status`, `assigned_to`, `time_quote` (unless hidden) and `tag_resolution`, all distinct |
| IssueForm.FieldsOrder | app/Form/Issue.php:114-133 | the form's keys are the head, then the upload block only when creating, then the internal block only with the issue-modify permission |
| IssueForm.UploadOnlyWhenCreating | app/Form/Issue.php:122-125 | the upload field is present exactly when creating |
| IssueForm.InternalFieldsNeedPermission | app/Form/Issue.php:114-133 | without issue-modify no internal field appears; with it, all of them do, the quote group exactly when it is not hidden |
| IssueForm.FieldsInternalContents | app/Form/Issue.php:128-161 | with the issue-modify permission, the form's `tag_status`, `assigned_to`, `time_quote` and `tag_resolution` entries are exactly those their builders make, so the builders' contents lemmas hold on the form |
| IssueForm.ModifyLookup | app/Form/Issue.php:140-161 | each internal field of `issueModifyFields()` is the entry its builder makes; a hidden quote group reads as null in both |
| IssueForm.FieldsHeadContents | app/Form/Issue.php:114-125 | the form's `tag_type` entry is the type builder's, and when creating its `upload` entry is the labelled upload field |
| IssueForm.Actions | app/Form/Issue.php:92-109 | submit is always offered; delete is offered exactly when editing and the delete guard holds |
| IssueForm.ActionsContents | app/Form/Issue.php:92-109 | submit is `update_issue` when editing and `create_issue` otherwise; delete is a danger button whose label names `#<issue id>` |
| IssueForm.RulesNameFields | app/Form/Issue.php:397-405 | every validation rule names a field the form shows, in every mode and with any permissions |
| IssueForm.RedirectNamesProject | app/Form/Issue.php:410-417 | editing redirects to the issue's edit URL; creating redirects to `project/<id>/issue/new`, whose second segment reads back as the project id |
| ProjectForm.Actions | app/Form/Project.php:28-46 | editing offers submit and delete; creating offers only submit |
| ProjectForm.ActionsContents | app/Form/Project.php:28-46 | submit is `update` or `create_project`; the delete button is a danger button whose label names the project |
| ProjectForm.ColumnTags | app/Form/Project.php:110-112 | the column tags are status tags other than `open` and `closed` |
| ProjectForm.ColumnTagsComplete | app/Form/Project.php:110-112 | every status tag other than `open` and `closed` is kept |
| ProjectForm.ColumnTagsAppend | app/Form/Project.php:110-112 | the filter distributes over concatenation, so it keeps the tags' order |
| ProjectForm.IndexOfId | app/Form/Project.php:126 | `search` finds the first position holding the id |
| ProjectForm.ColumnCheckedAsWrittenMeaning | app/Form/Project.php:115-126 | as written, a column is ticked exactly when the project is edited, the column is one of its kanban tags, and it is not the first one |
| ProjectForm.KanbanColumnsField | app/Form/Project.php:105-140 | the kanban part is the single entry `columns[]` |
| ProjectForm.ColumnsFieldBoxes | app/Form/Project.php:131-137 | the `columns[]` field's checkboxes are the built options |
| ProjectForm.KanbanOptions | app/Form/Project.php:109-128 | every non-open/closed status tag has a checkbox labelled `ucwords(name)`, and no other checkbox exists; with distinct labels the checkboxes are those tags in order |
| ProjectForm.KanbanChecked | app/Form/Project.php:115-128 | with distinct column labels: on the form built with the intended test, the i-th checkbox is ticked exactly when editing and the i-th column tag is one of the project's kanban tags |
| ProjectForm.FirstSelectedColumnUnticked | app/Form/Project.php:115-126 | with distinct column labels: on the form as written, the column of the project's first kanban tag is unticked although selected; the form built with the intended test ticks it |
| ProjectForm.KanbanCheckedAsWritten | app/Form/Project.php:115-128 | with distinct column labels: on the form as written, the i-th checkbox is ticked exactly when editing and the i-th column tag is a kanban tag of the project other than its first |
| ProjectForm.KanbanTickByLabel | app/Form/Project.php:119-128 | for any column labels: the checkbox labelled `ucwords(name)` carries the tick computed for the last column tag with that label, on either form |
| ProjectForm.KanbanTicksByLabel | app/Form/Project.php:115-128 | for any column labels: the checkbox of a label is ticked on the intended form exactly when editing and the label's last column tag is a kanban tag of the project; on the form as written, exactly when that tag is also not the project's first kanban tag |
| ProjectForm.FirstSelectedLabelUnticked | app/Form/Project.php:115-126 | for any column labels: when the project's first kanban tag is the last column tag with its label, the form as written shows that label unticked although selected, and the intended form ticks it |
| Php.LatestAt | app/Form/Project.php:120-127 | in a sequence of assignments, the value left under a key is the one of its last assignment |
| ProjectForm.BaseFields | app/Form/Project.php:53-68 | the form starts with `name`, `private` and `default_assignee` |
| ProjectForm.ModeFields | app/Form/Project.php:53-88 | creating adds `user`; editing adds `status` and keeps `default_assignee` in third place |
| ProjectForm.FieldsOrder | app/Form/Project.php:51-98 | keys are name, private, default_assignee, then user (create) or status (edit), then kanban_board and columns[], all distinct |
| ProjectForm.FieldsColumns | app/Form/Project.php:95-97 | the form's `columns[]` checkboxes are the kanban field's, ticked by the same test |
| ProjectForm.DefaultAssigneeField | app/Form/Project.php:65-88 | the default assignee is a hidden input when creating and, when editing, a select whose options start with the empty choice |
| ProjectForm.ModeSpecificFields | app/Form/Project.php:57-84 | visibility is always the private/public select; editing shows the open/archived status select and creating the user picker |
| ProjectForm.RulesMatchFields | app/Form/Project.php:145-153 | every rule names a shown field exactly when creating (the `user` rule has no field when editing) |
| ProjectForm.RedirectTarget | app/Form/Project.php:158-165 | editing redirects to the project's edit URL; creating redirects to `projects/new` |
| Attachments.AttachmentTable.DeleteWhere | app/Model/Project/Issue/Attachment.php:105-108 | the delete query leaves the rows that do not match all three conditions |
| Attachments.AttachmentTable.Insert | app/Model/Project/Issue/Attachment.php:91 | saving a new record appends its row |
| Attachments.Disk.MakeDirectory | app/Model/Project/Issue/Attachment.php:74 | the directory and every parent on its path below the root exist afterwards (the recursive flag); files are untouched |
| Attachments.Disk.Move | app/Model/Project/Issue/Attachment.php:79 | the moved file now lies in the given directory under the given name |
| Attachments.Disk.DeleteFile | app/Model/Project/Issue/Attachment.php:120-124 | the file is gone; the directory is removed only if nothing is left below it; neither step fails |
| Attachments.UploadDirectoryShape | app/Model/Project/Issue/Attachment.php:73 | the upload directory is `/uploads/<project id>/<token>`, and the project id reads back from it |
| Attachments.UploadDirectoryInjective | app/Model/Project/Issue/Attachment.php:110 | the two upload-directory path strings differ for different projects or tokens, whatever the token holds |
| Attachments.UploadDirectoryText | app/Model/Project/Issue/Attachment.php:73 | the upload directory is the string `/uploads/` + project id + `/` + token |
| Attachments.UploadDirectoryParents | app/Model/Project/Issue/Attachment.php:73-74 | the recursive `makeDirectory` of an upload also creates `/uploads` and `/uploads/<project id>` below the root |
| Attachments.UploadedRow | app/Model/Project/Issue/Attachment.php:81-87 | the saved row records the uploader, the token and the file name from the request (the name the file was moved to), and the extension and size of the moved file |
| Attachments.Remaining | app/Model/Project/Issue/Attachment.php:105-108 | a row survives `remove` exactly when it does not match the uploader, the token and the file name |
| Attachments.RemainingAppend | app/Model/Project/Issue/Attachment.php:105-108 | the delete acts row by row, so the surviving rows keep their order |
| Attachments.NoMatchRemovesNothing | app/Model/Project/Issue/Attachment.php:103-112 | with no matching row, `remove` deletes nothing |
| Attachments.RemainingIdempotent | app/Model/Project/Issue/Attachment.php:105-108 | removing twice removes nothing more |
| Attachments.RemoveAfterUpload | app/Model/Project/Issue/Attachment.php:71-112 | removing the file an upload stored takes its row back out, restoring the table when no earlier row matched |
| Attachments.Attachment.Upload | app/Model/Project/Issue/Attachment.php:71-92 | creates the upload directory and its parents, moves the file there under the request's `Filename`, fills the record, appends its row and returns true |
| Attachments.Attachment.Remove | app/Model/Project/Issue/Attachment.php:103-112 | deletes the matching rows and the file at `<root>/uploads/<project>/<token>/<filename>`, the same path upload used, then the directory if empty |
| Attachments.IsImageMeaning | app/Model/Project/Issue/Attachment.php:131-138 | an extension is an image exactly when it is jpg, jpeg, png or gif written wholly in lower or wholly in upper case |
| Attachments.AttachmentPathShape | app/Model/Project/Issue/Attachment.php:145-158 | the path is `project/<pid>/issue/<iid>/<action>/<id>`, and each id reads back from its segment |
| Attachments.DownloadDisplayDiffer | app/Model/Project/Issue/Attachment.php:145-158 | the download and display paths differ only in their fifth segment |
| UserCrud.CreatedAttributes | app/Model/Traits/User/CrudTrait.php:38-47 | a new user gets the input's email, names, role and status, `private` cast to boolean, the hashed password and the settings language |
| UserCrud.User.CreateUser | app/Model/Traits/User/CrudTrait.php:36-50 | fills the record with those attributes and returns true |
| UserCrud.CreatedRoleKept | app/Model/Traits/User/CrudTrait.php:36-88 | the role a user is created with survives every later `updateSetting`, which cannot reach `role_id` |
| UserCrud.Updated | app/Model/Traits/User/CrudTrait.php:105 | `update` overwrites exactly the given attributes and keeps the rest |
| UserCrud.DeletedAttributes | app/Model/Traits/User/CrudTrait.php:59-62 | the soft delete appends `_deleted` to the email and sets `deleted` to `DELETED_USERS`; nothing else changes |
| UserCrud.User.Delete | app/Model/Traits/User/CrudTrait.php:57-66 | soft-deletes the record, drops the user's memberships and returns true |
| UserCrud.WithoutUser | app/Model/Traits/User/CrudTrait.php:63 | a membership survives exactly when it belongs to another user |
| UserCrud.WithoutAbsentUser | app/Model/Traits/User/CrudTrait.php:63 | a table holding no row of the user is left as it is |
| UserCrud.WithoutUserAppend | app/Model/Traits/User/CrudTrait.php:63 | the other users' rows keep their order |
| UserCrud.SettingsOnly | app/Model/Traits/User/CrudTrait.php:77-85 | exactly the input keys among email, firstname, lastname, language, password, private and status are kept, with their values |
| UserCrud.SettingsDropOthers | app/Model/Traits/User/CrudTrait.php:77-85 | a key outside the whitelist, such as `role_id`, never reaches the update |
| UserCrud.UpdateSettingKeepsOthers | app/Model/Traits/User/CrudTrait.php:75-88 | `updateSetting` never changes an attribute outside the whitelist |
| UserCrud.User.UpdateSetting | app/Model/Traits/User/CrudTrait.php:75-88 | updates the record with the whitelisted input through `updateUser` |
| UserCrud.PreparedInfo | app/Model/Traits/User/CrudTrait.php:99-103 | the password key survives exactly when its value is not one of PHP's empty values (null, false, 0, "", "0", []), and is then the hash; every other key keeps its value and no key is added |
| UserCrud.UpdateUserEffect | app/Model/Traits/User/CrudTrait.php:97-106 | a truthy password is stored hashed; an empty one leaves the stored password as it was; other given attributes are stored as given and the rest are kept |
| UserCrud.User.UpdateUser | app/Model/Traits/User/CrudTrait.php:97-106 | requires the `password` key, which the source reads unconditionally; updates the record with the prepared input |
| UserCrud.MessagesApplied | app/Model/Traits/User/CrudTrait.php:115-122 | the table keeps its length and each row is updated as `ApplyMessage` says |
| UserCrud.MessagesIdempotent | app/Model/Traits/User/CrudTrait.php:115-122 | saving the same message settings twice changes nothing more |
| UserCrud.MessagesOnlyOwnRows | app/Model/Traits/User/CrudTrait.php:115-122 | rows of other users or other projects are unchanged, and no row changes anything but its message |
| UserCrud.User.UpdateMessagesSettings | app/Model/Traits/User/CrudTrait.php:115-122 | the loop over the rows leaves exactly `MessagesApplied` of the old table |

## Left out

- `FormAbstract` is not part of this model. It provides `isEditing`, `getModel`, `editingModel`
  and `projectUploadFields`.
  - Editing is modelled as "a record is bound".
  - The result of `projectUploadFields` is an input array. Its keys are assumed unique and
    distinct from the issue form's own field names, and its `upload` entry is assumed to be an
    array or absent (`UploadFieldsOk`, required by IssueForm.FieldUpload and the lemmas about it).
- Some constants are defined outside the modelled files, so their values are assumed:
  - `User::DELETED_USERS` = 1;
  - `Project::PRIVATE_YES` = 1 and `PRIVATE_NO` = 0;
  - `Project::STATUS_OPEN` = 1 and `STATUS_ARCHIVED` = 0;
  - `Tag::STATUS_OPEN` = "open" and `STATUS_CLOSED` = "closed".
- Several framework services are function-typed parameters or boolean inputs: `trans`,
  `URL::to`, `Hash::make`, `Tag::canView`, and the `auth()` permission checks.
  - The delete guard of the issue form (app/Form/Issue.php:98) is its own input. It is
    not the issue-modify flag of `fields()`.
- ORM queries become input sequences in query order: `getGroupTags`, `usersCanFixIssue`,
  `kanbanTags`, `getStatusTags`, and the relations `issue`, `user` and `comment`. The
  download and display URLs take the project and issue ids as parameters.
- Reading a tag group that does not exist (`->first()->tags` on null) is an error in the
  source. It is a precondition here.
- IssueForm.TagsReady: when editing, it also requires the group to hold at least one tag.
  On an empty group `getIssueTag` reads `parent_id` of null (app/Form/Issue.php:65); that
  error path is a precondition of every tag field, not a modelled outcome. `getTags()` with no type, which returns every group, is
  not used by the modelled code and is not modelled.
- `$currentTag && …` in the tag fields always sees an object, which is truthy. The test is
  modelled without it.
- IssueForm.ExtractQuoteValue: `floor` returns a float in PHP; the model returns the integer
  it equals.
- The form arrays are not rendered. The form builder library is out of scope.
- Filesystem effects are updates of a set of directories and a set of files: `makeDirectory`,
  `move`, `unlink` and `rmdir`. Permissions, the `0777` mode and I/O errors are not modelled.
  - The extension and size of the moved file are an input (`MovedFile`). Its name is the
    request's `Filename` as given; the base-name clean-up the upload library applies to
    the target name is not part of this model.
  - The `config('filesystems.disks.local.root')` lookup is the `root` parameter.
- Attachments.Disk, Attachments.UploadDirectoryInjective and Attachments.Attachment.Remove:
  paths are raw strings. `.`, `..` and repeated `/` are not resolved. A token or file name
  holding them reaches files outside the upload tree in the source (the request's
  `upload_token` and `filename` go straight into the unlinked path,
  app/Model/Project/Issue/Attachment.php:110-123), but not in the model.
- Attachments.MovedFile: the extension is an input. In the source it is derived from the
  moved file's name by `getExtension()`, and the model does not tie it to the name or to
  `IsImage`.
- Attachments.Attachment.Upload: does not model a failing `save()`; it always returns true.
  Record ids, timestamps and the `issue_id`/`comment_id` columns are also not modelled.
- UserCrud.User.CreateUser: does not model a failing `save()`. The mass-assignment guard
  (`$fillable`) of the User model is not in the modelled files, so `update`/`fill` store
  every given attribute.
- UserCrud.CreatedAttributes and UserCrud.User.CreateUser: the seven input keys the source
  reads are a precondition. A missing key is an undefined-index error in the source
  (app/Model/Traits/User/CrudTrait.php:39-45); that error is not modelled.
- UserCrud.User.UpdateSetting and UserCrud.User.UpdateUser: the `password` key is a
  precondition. Without it the source fails on an undefined index
  (app/Model/Traits/User/CrudTrait.php:99); that error is not modelled.
- UserCrud.User.UpdateUser: does not return the boolean `update()` gives, which comes from
  the database.
- UserCrud.User.UpdateMessagesSettings: input keys are project ids as natural numbers. PHP
  string keys that are not numeric are not modelled.
- Php.Key: PHP stores a decimal-integer string key such as "5" as the integer key 5. The
  model keeps `StrKey("5")` and `IntKey(5)` apart, so a `ucwords($tag->name)` label of a tag
  named "5" (app/Form/Issue.php:210, app/Form/Project.php:121) stays a string key. No modelled
  array mixes keys that come from strings with integer keys, and PHP keeps insertion order for
  both kinds, so key equality and order are the same as in the source.
- IssueForm.TagField, IssueForm.FieldAssignedTo, IssueForm.FieldUpload, IssueForm.Actions,
  ProjectForm.Actions, ProjectForm.KanbanColumnsField, ProjectForm.BaseFields and
  ProjectForm.ModeFields: their own contracts state only the keys they produce. The contents
  are stated by the lemmas listed beside them in the table.
- ProjectForm.KanbanChecked, ProjectForm.KanbanCheckedAsWritten and
  ProjectForm.FirstSelectedColumnUnticked: they state the ticks box by box in column order and
  so require distinct `ucwords` labels. When two column tags share a label (say "review" and
  "Review"), there is one checkbox, and it carries the tick of the later tag. That case is
  stated by ProjectForm.KanbanTickByLabel, ProjectForm.KanbanTicksByLabel and
  ProjectForm.FirstSelectedLabelUnticked, which hold for any labels.
- ProjectForm.BaseFields: the `name` text field and the exact attributes of the hidden
  default-assignee input are not stated by any lemma.

## Findings

| source | as written | input that shows it | evidently intended | confidence | as-written member | corrected member |
|---|---|---|---|---|---|---|
| app/Form/Project.php:126 | `'checked' => isset($selectTags) && $selectTags->search($tag->id) > 0` | editing a project whose kanban tags have ids [5, 7]: `search(5)` is 0, so column 5 is shown unticked although it is selected | tick every selected column: `search(...) !== false` | medium, not executed | ProjectForm.FirstSelectedLabelUnticked | ProjectForm.KanbanTicksByLabel |
