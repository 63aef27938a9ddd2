# Pneumatic workflow: task fields, condition rules and notifications

This project models three pieces of the Pneumatic workflow system in Dafny and proves properties of them.

- **The task-field service** (`TaskFields`, `FieldValues`). This service creates the field a task or a kickoff form holds from its template. It validates the raw value a client sends for the field: radio, dropdown, checkbox, url and date values, each with its own error message. It marks the field's selections as selected or not. It binds uploaded file attachments to a file field. The service's rows (the field instance, the attachment table, the selection rows and the log of selection-create calls) are fields of the class `TaskFields.Service`, updated in place by its methods.
- **The condition editor of the template editor** (`Conditions`). A task has a list of conditions, each with a list of rules. Every handler computes the new list that the editor passes to `onEdit`: pruning the rules of deleted fields, adding a rule, merging a partial change into a condition or a rule, removing a rule, and the field and operator dropdowns.
- **The notification endpoints** (`Notifications`). These cover the permission checks the notification viewset picks for each action, the `count` action, and the mark-read request. The mark-read request updates the notification table, a field of `Notifications.NotificationTable`, in place.

`Common` holds `Option`, `Result` and the order-preserving `Filter` that both Django querysets and JavaScript arrays perform. `Decimal` holds decimal text for natural numbers and integers, with its parse and round-trip lemmas.

The only source of the task-field service in this model is its test suite, `test_taskfield.py`. The model follows what those tests require. `pneumatic_backend/processes/api_v2/services/task/field.py` is not part of this model. Where the tests are silent, the choices are:

- the first selection a key names wins;
- a decimal id string names the selection with that id;
- a radio or dropdown value that is not a string (a number, say) raises MSG_PW_0028;
- a checkbox item that names no selection raises MSG_PW_0030, whether or not the field has selections (the tests show MSG_PW_0030 only against a field without selections);
- an empty checkbox list gives an empty value;
- a url value that is not a string, including a missing value and a list, raises MSG_PW_0034;
- a date value of any shape other than a number raises MSG_PW_0032, and a boolean does not count as a number there;
- for a user field, `int()` accepts a boolean as 0 or 1, and a missing value or a list makes creation fail as not an integer;
- a file field's update deletes only the attachments bound to the field that the new value does not list; an attachment listed again stays bound, so resubmitting an unchanged file field keeps its files.

## Model

| member | source | states |
|---|---|---|
| FieldValues.FindChoice | core/pneumatic_backend/processes/api_v2/tests/test_services/test_taskfield.py:1516-1556 | the index found is that of a selection the key names by decimal id or by api_name, and no earlier selection is named; None only when no selection is named |
| FieldValues.RadioValue | core/pneumatic_backend/processes/api_v2/tests/test_services/test_taskfield.py:1415-1606 | accepted exactly when the raw value is a string naming some selection; then value and markdown are that selection's value; every rejection is MSG_PW_0028 with the field's api_name |
| FieldValues.CollectValues | core/pneumatic_backend/processes/api_v2/tests/test_services/test_taskfield.py:1609-1834 | succeeds exactly when every list item is a string naming a selection, and then yields the named values in item order |
| FieldValues.CheckboxValue | core/pneumatic_backend/processes/api_v2/tests/test_services/test_taskfield.py:1609-1914 | a non-list raises MSG_PW_0029 and only a non-list does; a list is accepted exactly when every item names a selection, otherwise MSG_PW_0030; value and markdown are the named values joined by ", " |
| FieldValues.JoinConcat | core/pneumatic_backend/processes/api_v2/tests/test_services/test_taskfield.py:1663-1722 | joining two lists is joining each, with one separator between, so the joined text keeps the order of the items |
| FieldValues.CheckboxTwoIds | core/pneumatic_backend/processes/api_v2/tests/test_services/test_taskfield.py:1663-1722 | two options listed by id give "first option, second option" as value and as markdown |
| FieldValues.UrlValue | core/pneumatic_backend/processes/api_v2/tests/test_services/test_taskfield.py:2023-2102 | a non-string raises MSG_PW_0034 and only a non-string does; a string is accepted exactly when it starts with http:// or https:// and its host is accepted, otherwise MSG_PW_0035; the value is kept and the markdown is `[field name](url)` |
| FieldValues.UrlRejectsOtherSchemes | core/pneumatic_backend/processes/api_v2/tests/test_services/test_taskfield.py:2048-2073 | an ssh:// url and a relative path raise MSG_PW_0035 whatever the host check says |
| FieldValues.MarkdownLinkRoundTrip | core/pneumatic_backend/processes/api_v2/tests/test_services/test_taskfield.py:2076-2102 | the markdown link of a url field gives back both the field name and the url when the name holds no `]` |
| FieldValues.DateValue | core/pneumatic_backend/processes/api_v2/tests/test_services/test_taskfield.py:1973-2020 | accepted exactly when the raw value is a number; strings and other shapes raise MSG_PW_0032; the value is the number's decimal text, the markdown its formatted date |
| FieldValues.RadioAgreesWithSelection | core/pneumatic_backend/processes/api_v2/tests/test_services/test_taskfield.py:490-623 | for an accepted radio value, the selections marked selected are exactly those it names, and the stored value is the first of them |
| FieldValues.CheckboxItemSelects | core/pneumatic_backend/processes/api_v2/tests/test_services/test_taskfield.py:356-489 | each item of an accepted checkbox list marks the selection it names as selected, and that selection's value is the one stored for the item |
| FieldValues.CheckboxSelectsOnlyNamed | core/pneumatic_backend/processes/api_v2/tests/test_services/test_taskfield.py:937-1104 | a selection marked selected by an accepted checkbox list is named by some item |
| FieldValues.NullSelectsNothing | core/pneumatic_backend/processes/api_v2/tests/test_services/test_taskfield.py:251-355 | a missing value marks no selection as selected |
| TaskFields.UserIdOf | core/pneumatic_backend/processes/api_v2/tests/test_services/test_taskfield.py:153-200 | a number is its own user id; a string gives an id exactly when it is decimal digits; a missing value or a list is not an integer |
| TaskFields.UserIdOfDecimal | core/pneumatic_backend/processes/api_v2/tests/test_services/test_taskfield.py:153-200 | a user id sent as its decimal text is read back as that id |
| TaskFields.NewField | core/pneumatic_backend/processes/api_v2/tests/test_services/test_taskfield.py:39-150 | the new field copies type, name, description, api_name, order and required flag from its template, belongs to the given task or kickoff and workflow, and has no value yet |
| TaskFields.Service.CreateInstance | core/pneumatic_backend/processes/api_v2/tests/test_services/test_taskfield.py:39-247 | with skip_value the field is created empty and the validator is not consulted; a rejected value, or a user value that is not an integer, fails and creates nothing; every other value creates the field, which holds the validated value, its markdown, its clear form and, for a user field, the user id |
| TaskFields.Service.CreateSelectionsWithValue | core/pneumatic_backend/processes/api_v2/tests/test_services/test_taskfield.py:250-623 | one create call per template selection, in template order, for the instance's id, selected exactly when the raw value names the selection |
| TaskFields.Service.UpdateSelections | core/pneumatic_backend/processes/api_v2/tests/test_services/test_taskfield.py:809-1272 | every selection row becomes selected exactly when the raw value names it by id or api_name; nothing else in any row changes |
| TaskFields.Service.LinkNewAttachments | core/pneumatic_backend/processes/api_v2/tests/test_services/test_taskfield.py:626-806 | the attachment table becomes the one where every listed attachment of the user's account outside any event is bound to the field and its workflow |
| TaskFields.LinkedChangesOnlyGuarded | core/pneumatic_backend/processes/api_v2/tests/test_services/test_taskfield.py:695-773 | an attachment is bound to the field after linking exactly when it passes the guard or was bound before; attachments of another account or of an event are left unchanged; ids, accounts and events never change |
| TaskFields.LinkedNothingListed | core/pneumatic_backend/processes/api_v2/tests/test_services/test_taskfield.py:775-806 | an empty id list binds nothing |
| TaskFields.LinkedIdempotent | core/pneumatic_backend/processes/api_v2/tests/test_services/test_taskfield.py:660-694 | linking an already linked list again changes nothing |
| TaskFields.UpdatedFileBindsExactlyListed | core/pneumatic_backend/processes/api_v2/tests/test_services/test_taskfield.py:1275-1412 | after a file field's update every attachment bound to the field is listed in the new value, every listed attachment of the user's account outside any event is bound, and one bound before and listed again stays bound |
| TaskFields.UpdateKeepsListedFile | core/pneumatic_backend/processes/api_v2/tests/test_services/test_taskfield.py:1275-1346 | with two attachments bound to a file field and the second listed by its id as text, the update deletes the first and keeps the second bound |
| TaskFields.Service.PartialUpdateFile | core/pneumatic_backend/processes/api_v2/tests/test_services/test_taskfield.py:1275-1412 | a rejected value changes nothing; otherwise the attachments bound to the field and not listed are deleted, the listed ones are bound (none for a null value), and the value, markdown and clear value are stored |
| Conditions.MergeRuleLaws | web-client/src/public/components/TemplateEdit/TaskForm/Conditions/Conditions.tsx:103-114 | merging an empty change is the identity, merging the same change twice is merging it once, and two merges in a row are one merge of the combined change |
| Conditions.DeletedFields | web-client/src/public/components/TemplateEdit/TaskForm/Conditions/Conditions.tsx:55-57 | a name is deleted exactly when some previous variable had it and no current variable has it |
| Conditions.OnVariablesChanged | web-client/src/public/components/TemplateEdit/TaskForm/Conditions/Conditions.tsx:54-72 | no edit on the first render or when every previous variable is still present; otherwise every condition, in order, keeps its fields and only the rules that survive the deletion |
| Conditions.PruneKeepsLiveFields | web-client/src/public/components/TemplateEdit/TaskForm/Conditions/Conditions.tsx:64 | a rule without a field always survives; a rule on a previously known field survives exactly when the field is still a variable |
| Conditions.PruneRulesKeepsOrder | web-client/src/public/components/TemplateEdit/TaskForm/Conditions/Conditions.tsx:63-67 | pruning keeps exactly the surviving rules, in their original order |
| Conditions.AddNewRule | web-client/src/public/components/TemplateEdit/TaskForm/Conditions/Conditions.tsx:74-91 | with no conditions, the empty conditions for the current access (subscribed or on the free plan); otherwise only the first condition, with its own api name and action and its rules plus an empty rule, renamed |
| Conditions.RemoveAt | web-client/src/public/components/TemplateEdit/TaskForm/Conditions/Conditions.tsx:118 | an index in range loses exactly that element and keeps the rest in order; an index out of range changes nothing |
| Conditions.ChangeCondition | web-client/src/public/components/TemplateEdit/TaskForm/Conditions/Conditions.tsx:93-101 | the changed condition is its shallow merge with the change; the list keeps its length and every other condition |
| Conditions.ChangeRule | web-client/src/public/components/TemplateEdit/TaskForm/Conditions/Conditions.tsx:103-114 | the changed rule is its shallow merge with the change, the condition's rules are then renamed, and every other condition and the condition's own fields are unchanged |
| Conditions.RemoveRule | web-client/src/public/components/TemplateEdit/TaskForm/Conditions/Conditions.tsx:116-123 | the condition loses exactly the rule at the index, the other rules keep their order, and every other condition is unchanged |
| Conditions.ChooseField | web-client/src/public/components/TemplateEdit/TaskForm/Conditions/Conditions.tsx:200-209 | no change exactly when the field is already the rule's; otherwise field and type are set and operator and value cleared, the logic operation kept |
| Conditions.ChooseOperator | web-client/src/public/components/TemplateEdit/TaskForm/Conditions/Conditions.tsx:221-232 | no change exactly when the operator is already the rule's; otherwise the operator is set and the value is cleared exactly for exist and not-exist |
| Conditions.OnFieldChange | web-client/src/public/components/TemplateEdit/TaskForm/Conditions/Conditions.tsx:200-209 | no edit exactly when the chosen field is the rule's; otherwise only that rule changes (new field and type, no operator, no value) before renaming; the condition keeps its api name and action, and other conditions are unchanged |
| Conditions.OnOperatorChange | web-client/src/public/components/TemplateEdit/TaskForm/Conditions/Conditions.tsx:221-232 | no edit exactly when the chosen operator is the rule's; otherwise only that rule changes (new operator, value cleared for value-less operators) before renaming; the condition keeps its api name and action, and other conditions are unchanged |
| Notifications.IsSubstringIff | core/accounts/views/notifications.py:51 | Python's `in` on two strings holds exactly when the first occurs as a slice of the second |
| Notifications.PermissionsAsWritten | core/accounts/views/notifications.py:50-60 | a missing action raises TypeError; otherwise all three checks exactly when the action name occurs inside "destroy", authentication alone otherwise |
| Notifications.Permissions | core/accounts/views/notifications.py:50-60 | all three checks exactly for the destroy action, authentication alone for every other action |
| Notifications.PermissionsAsWrittenDiffers | core/accounts/views/notifications.py:50-60 | the written choice agrees with the intended one on "destroy" and on every name that does not occur inside it; it raises on a missing action and grants the destroy checks to "" |
| Notifications.PermissionsOfViewsetActions | core/accounts/views/notifications.py:50-60 | destroy gets all three checks; list and count get authentication alone |
| Notifications.Count | core/accounts/views/notifications.py:73-77 | the count never exceeds the number of the user's own notifications |
| Notifications.CountAdditive | core/accounts/views/notifications.py:73-77 | the count of a table is the sum of the counts of its parts, and a single row counts one exactly when it is the user's and passes the request's filter |
| Notifications.MarkedReadExactly | core/accounts/views/notifications.py:93-103 | a notification changes exactly when it is the user's own, unread and listed, and becomes read; ids and owners never change |
| Notifications.MarkedReadOnlyOwn | core/accounts/views/notifications.py:93-94 | another user's notifications are never touched |
| Notifications.MarkedReadIdempotent | core/accounts/views/notifications.py:96-103 | repeating a mark-read request changes nothing further |
| Notifications.MarkedReadKeepsCount | core/accounts/views/notifications.py:73-103 | marking as read keeps a user's count under any filter that ignores the read status |
| Notifications.NotificationTable.MarkRead | core/accounts/views/notifications.py:96-103 | the response is OK whatever is sent; a missing or empty id list leaves the table as it is; otherwise the table becomes the one with the user's listed unread notifications read |

## Left out

- `pneumatic_backend/processes/api_v2/services/task/field.py` is not part of this model. The service's own code is known only from its tests, so every choice they leave open is stated at the top of this file.
- TaskFields.Service.PartialUpdateFile: models the update of file fields only. The update of other field types (value and selections) is not modelled, because its tests cover file fields only.
- TaskFields.UserIdOf: Python's `int()` is modelled for numbers, booleans and plain decimal digit strings. Signs, surrounding whitespace and digit separators are left out.
- TaskFields.IdListed: Django's coercion of attachment ids in `id__in` is modelled for numbers and plain decimal digit strings only.
- FieldValues.UrlValue: the url validator's host check is the parameter `hostOk`. The scheme check is modelled as a case-sensitive prefix test.
- FieldValues.DateValue: the human-readable date format is the parameter `format`. Float timestamps have no form in the model's raw values, so the text `str()` gives them (`'176516132.0'` for `176516132.00`) is not modelled.
- `MarkdownService.clear` is the parameter `clear` of the create and update methods.
- The checkbox error MSG_PW_0031 for a name that matches none of the field's selections is left out. The only test of that case is commented out, and the model raises MSG_PW_0030 for it instead.
- Conditions: the operators other than exist and not-exist are one case, `Other`, named by its text. The model relies on `Other` never being used for exist or not-exist; the enumeration's own values are not part of this model, so that is not enforced.
- Conditions: rule values and logic operations are opaque text. `setRulesApiNamesAndIds`, `getEmptyRule` and `getEmptyConditions` are the parameters `nameRules`, `emptyRule` and `emptyConditions`. Rendering, translations and the user and variable dropdown contents are left out.
- Notifications.Count: the request's query filters are the parameter `keep`. Pagination, prefetching, the serializer and the `destroy` action's deletion are left out.
- Notifications.NotificationTable.MarkRead: the `notifications` ids are modelled as a list of integers. Request parsing of other shapes is left out.
- Database transactions, concurrency between requests, and the HTTP and permission-class plumbing of the frameworks are left out.

## Findings

| source | as written | input that shows it | evidently intended | confidence | as-written member | corrected member |
|---|---|---|---|---|---|---|
| core/accounts/views/notifications.py:51 | `self.action in 'destroy'` is a substring test on strings and raises TypeError when the action is None | a request whose HTTP method maps to no action, for which the viewset's action is None: choosing the permissions raises instead of answering that the method is not allowed; an action named "" or "roy" would also get the destroy checks | `self.action == 'destroy'` | medium, not executed | Notifications.PermissionsAsWritten | Notifications.Permissions |
