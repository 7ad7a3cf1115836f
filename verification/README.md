# opencrm core, modelled in Dafny

opencrm is a small React CRM. Its users keep contacts, tasks and interactions, and it has
a dashboard and a reports page. This project models the logic behind those screens as
pure Dafny functions and proves properties of them:

- the country table and phone-number handling shared by the two contact forms: composing
  `dial code + local digits`, taking a stored number apart again, the country and phone
  handlers, and what each submit hands to the contacts service;
- the `localStorage` contacts and tasks services: `getAll`, `add`, `update`, `delete`,
  `getById`;
- the list pages for contacts, tasks and interactions: search, select filters and sort,
  plus the country options of the contact filter;
- the counters of the reports page and of the dashboard, and the dashboard's five most
  recent tasks and contacts;
- the task and interaction forms: initial state, reload, contact choice and submit.

JavaScript semantics are written out where they matter:

- `replace` with a string pattern replaces only the first occurrence.
- `trim` removes ECMAScript whitespace. `toLowerCase` is modelled on ASCII letters.
- `split('T')[0]` is `Strings.Before`.
- `localeCompare` is code-point order (`Strings.Compare`).
- `Array.prototype.sort` is modelled as a stable insertion sort. For a consistent comparator every stable sort gives this order.
- A comparator that yields NaN compares as a tie.
- `x || d` follows JavaScript truthiness (`Records.Or`), and `undefined` is `None`.
- A handler that throws becomes a flag, an `Option` or a `Reject`, so the error path is
  part of each contract.

Modules:

| file | module | role |
|---|---|---|
| wrappers.dfy | Wrappers | `Option`, `Result` |
| seqs.dfy | Seqs | `filter`, `find`, `findIndex`, `slice`, counting, de-duplication |
| strings.dfy | Strings | `includes`, `replace`, `trim`, `toLowerCase`, `split`, `localeCompare` |
| sorting.dfy | Sorting | `sort` with a comparator; the comparators the pages use |
| listing.dfy | Listing | the `filter(...).sort(...)` pattern shared by the list pages |
| records.dfy | Records | JSON values, records, truthiness, object spread, what a submit saves |
| countries.dfy | Countries | src/data/countries.js |
| store.dfy | LocalStore | src/services/localStorage.js |
| phone.dfy | Phone | composing and decomposing phone numbers |
| contact_form.dfy | ContactForm | src/components/ContactModal.jsx |
| contact_inline_form.dfy | InlineContactForm | the `ContactModal` inside src/pages/Contacts.jsx |
| contacts_page.dfy | ContactsPage | the list logic of src/pages/Contacts.jsx |
| entities.dfy | Entities | tasks and interactions as the pages read them |
| tasks_page.dfy | TasksPage | src/pages/Tasks.jsx |
| interactions_page.dfy | InteractionsPage | src/pages/Interactions.jsx |
| reports.dfy | Reports | `calculateStats` of src/pages/Reports.jsx |
| dashboard.dfy | Dashboard | `calculateStats` of src/pages/Dashboard.jsx |
| task_form.dfy | TaskForm | src/components/TaskModal.jsx |
| interaction_form.dfy | InteractionForm | src/components/InteractionModal.jsx |

## Model

| member | source | states |
|---|---|---|
| Strings.IndexOf | src/components/ContactModal.jsx:26 | the index is the least at which the pattern occurs, and `None` means it occurs nowhere |
| Strings.ReplaceFirst | src/components/ContactModal.jsx:26 | with a string pattern only the first occurrence is replaced; without an occurrence the text is unchanged |
| Strings.ReplacePrefix | src/components/ContactModal.jsx:26 | removing a pattern the text starts with leaves exactly the rest |
| Strings.Trim | src/components/ContactModal.jsx:26 | the result has no surrounding whitespace and is a slice of the input with only whitespace cut off either side |
| Strings.TrimTrimmed | src/components/ContactModal.jsx:26 | trimming a text without surrounding whitespace leaves it unchanged |
| Strings.DigitsOnly | src/components/ContactModal.jsx:33 | the result is all digits and a subsequence of the input, keeps every digit as often as the input has it, and is the input itself when that is all digits |
| Strings.Lower | src/pages/Contacts.jsx:68 | lower-casing is character-wise and keeps the length |
| Strings.ContainsLower | src/pages/Contacts.jsx:68-73 | a case-sensitive match is also a case-insensitive one |
| Strings.ContainsTransitive | src/pages/Contacts.jsx:69-73 | `includes` is transitive |
| Strings.Before | src/components/TaskModal.jsx:11 | the part before the first separator is a prefix without the separator, followed in the text by the separator when shorter |
| Strings.BeforeSeparator | src/components/TaskModal.jsx:11 | splitting `date + 'T' + time` gives back the date |
| Strings.BeforeAbsent | src/components/InteractionModal.jsx:12 | splitting a text without the separator gives the whole text |
| Strings.Compare | src/data/countries.js:22 | the comparison is between -1 and 1 and is 0 exactly for equal texts |
| Strings.CompareAntisymmetric | src/data/countries.js:22 | swapping the arguments flips the sign |
| Strings.CompareTransitive | src/data/countries.js:22 | `compare(a, b) <= 0` is transitive |
| Seqs.Filter | src/services/localStorage.js:36 | the kept elements satisfy the predicate, keep their order, and are as many as the elements that satisfy it |
| Seqs.FilterMember | src/services/localStorage.js:36 | an element is kept exactly when it occurs and satisfies the predicate |
| Seqs.FilterMultiplicity | src/pages/Contacts.jsx:66-79 | a kept element keeps its full multiplicity |
| Seqs.FilterAll | src/services/localStorage.js:36 | a predicate every element satisfies keeps the whole list |
| Seqs.CountAppend | src/pages/Reports.jsx:64-81 | counting over a concatenation adds the counts |
| Seqs.CountDisjoint | src/pages/Reports.jsx:78-80 | two predicates that never hold together count at most the whole list |
| Seqs.CountMonotonic | src/pages/Contacts.jsx:66-79 | a weaker predicate counts at least as many elements |
| Seqs.CountPartition3 | src/pages/Reports.jsx:50-54 | three predicates that split the list count its length together |
| Seqs.CountNone | src/pages/Dashboard.jsx:39-41 | a predicate no element satisfies counts nothing |
| Seqs.FindPermutation | src/data/countries.js:22 | `find` over a rearrangement succeeds exactly when some element matches |
| Seqs.FindUnique | src/data/countries.js:22 | when one element alone matches, `find` over any rearrangement returns it |
| Seqs.DistinctOnce | src/pages/Contacts.jsx:97 | an element occurs at most once in a list without repeats |
| Seqs.DistinctPermutation | src/pages/Contacts.jsx:97-101 | rearranging a list without repeats leaves none |
| Seqs.FindIndex | src/services/localStorage.js:25 | the index is the least at which the predicate holds, and `None` means it holds nowhere |
| Seqs.Find | src/services/localStorage.js:79 | an element of the list satisfying the predicate is found exactly when one exists |
| Seqs.Take | src/pages/Dashboard.jsx:45 | `slice(0, n)` keeps the first `min(n, length)` elements |
| Seqs.Dedup | src/pages/Contacts.jsx:97 | the result has no repeats and holds exactly the input's elements |
| Sorting.Insert | src/data/countries.js:22 | inserting adds exactly one element |
| Sorting.SortBy | src/data/countries.js:22 | sorting rearranges the input |
| Sorting.SortSorted | src/data/countries.js:22 | with a consistent comparator the result is ordered |
| Sorting.SortOrdered | src/data/countries.js:22 | sorting an ordered sequence changes nothing |
| Sorting.TiesKeepOrder | src/pages/Tasks.jsx:69-70 | a comparator that ties every pair keeps the input order, as for the unknown sort key |
| Sorting.SortedUnique | src/data/countries.js:22 | two ordered rearrangements under a strict comparator coincide |
| Sorting.Direction | src/pages/Contacts.jsx:81 | the direction is 1 exactly for `asc` and -1 otherwise, as on the tasks list |
| Sorting.ByKeyConsistent | src/pages/Tasks.jsx:63 | a sign-flipped date difference is a consistent comparator when every date is valid |
| Sorting.ByTextConsistent | src/pages/Tasks.jsx:68 | a sign-flipped `localeCompare` is a consistent comparator |
| Sorting.SortByTextAscending | src/data/countries.js:22 | sorting by distinct names gives strictly ascending names |
| Sorting.SortByKeyOrdered | src/pages/Interactions.jsx:92 | sorting by a date every element has gives dates in the chosen direction |
| Listing.FilterSort | src/pages/Contacts.jsx:66-94 | filter then sort: exactly the kept elements, each as often as in the input |
| Listing.TextOrder | src/pages/Contacts.jsx:80-94 | sorting by a text orders the texts in the chosen direction |
| Listing.KeyOrder | src/pages/Interactions.jsx:88-100 | sorting by a numeric key every kept element has orders the keys in the chosen direction |
| Listing.TiesKeepOrder | src/pages/Contacts.jsx:91-92 | an all-tie comparator lists the kept elements in input order |
| Listing.KeepsAll | src/pages/Contacts.jsx:66-79 | when every element is kept the list is a rearrangement of the input |
| Records.Get | src/services/localStorage.js:25 | a missing key reads as `undefined` |
| Records.GetIn | src/components/ContactModal.jsx:11-19 | `contact?.key` is `undefined` without a contact |
| Records.Or | src/components/ContactModal.jsx:11-19 | `v \|\| d` is the value when truthy and the default otherwise |
| Records.Merge | src/services/localStorage.js:27 | `{ ...a, ...b }` has the keys of both, the right-hand side winning |
| Records.MergeIdempotent | src/services/localStorage.js:27 | merging the same fields twice equals merging them once |
| Countries.ListedCodesDistinct | src/data/countries.js:1-21 | twenty entries with pairwise distinct codes |
| Countries.ListedNamesDistinct | src/data/countries.js:1-21 | pairwise distinct names |
| Countries.ListedDialsWellFormed | src/data/countries.js:1-21 | every dial code is `+` and one to three digits |
| Countries.ListedDistinct | src/data/countries.js:1-21 | the entries are pairwise different |
| Countries.ListedDialShapes | src/data/countries.js:1-21 | the shapes of the dial codes, from which prefix-freedom follows |
| Countries.ListedDialsPrefixFree | src/data/countries.js:1-21 | no dial code is a proper prefix of another |
| Countries.TableEntries | src/data/countries.js:1-22 | the sorted table holds exactly the twenty listed entries, each once |
| Countries.TableMember | src/data/countries.js:1-22 | every table entry is a listed entry |
| Countries.TableSortedByName | src/data/countries.js:22 | after the sort at module load the names strictly ascend |
| Countries.TableCodesDistinct | src/data/countries.js:1-22 | the table's codes are pairwise distinct |
| Countries.TableDialCodes | src/data/countries.js:1-22 | the table's dial codes are well formed and prefix-free |
| Countries.CodeIndex | src/data/countries.js:1-21 | the position in the list of the entry with the code |
| Countries.Lookup | src/data/countries.js:1-21 | the entry with the code, and nothing exactly for a code outside the list |
| Countries.NoListedCode | src/data/countries.js:1-21 | a code outside the list is no entry's code |
| Countries.FindLookup | src/components/ContactModal.jsx:25 | `countries.find` by code over the sorted table returns the entry with that code, or nothing |
| Countries.FindByCode | src/components/ContactModal.jsx:25 | in any rearrangement of entries with distinct codes, `find` by code returns that entry |
| Countries.FindEntry | src/components/ContactModal.jsx:25 | `find` by the code of a listed entry returns that entry, whatever the sort did |
| Countries.FindListed | src/components/ContactModal.jsx:25 | `find` by code succeeds exactly for the listed codes |
| Countries.FindUS | src/components/ContactModal.jsx:18-19 | the default code `US` is the United States with `+1` |
| Countries.FindCA | src/data/countries.js:12 | `CA` is Canada with `+1` |
| Countries.SharedDialCode | src/data/countries.js:2-12 | two countries share `+1`, so a dial code does not determine a country |
| LocalStore.ContactsGetAll | src/services/localStorage.js:6-9 | an empty slot reads as the empty list |
| LocalStore.ContactsAdd | src/services/localStorage.js:11-21 | the new record is appended; a caller's id wins over the generated one; `createdAt` is now; nothing else changes |
| LocalStore.ContactsUpdate | src/services/localStorage.js:23-32 | the first record with the id is merged with the fields and returned; the rest is untouched; an unknown id gives `null` and writes nothing |
| LocalStore.ContactsDelete | src/services/localStorage.js:34-38 | exactly the records with another id remain, in order: a subsequence holding those records and as many as the list has, so none is dropped |
| LocalStore.ContactsDeleteMissing | src/services/localStorage.js:34-38 | deleting an id nobody has leaves the list unchanged |
| LocalStore.ContactsDeleteIdempotent | src/services/localStorage.js:34-38 | deleting twice is deleting once |
| LocalStore.TasksGetAll | src/services/localStorage.js:43-46 | an empty slot reads as the empty list |
| LocalStore.TasksAdd | src/services/localStorage.js:48-58 | the new record is appended; the clock id overrides any id of the caller; `createdAt` is now |
| LocalStore.TasksUpdate | src/services/localStorage.js:60-69 | as for contacts, but an unknown id fails with `Task not found` |
| LocalStore.TasksDelete | src/services/localStorage.js:71-75 | exactly the tasks with another id remain, in order: a subsequence holding those tasks and as many as the list has, so none is dropped |
| LocalStore.TasksGetById | src/services/localStorage.js:77-82 | the first task with the id, or `Task not found` exactly when none has it |
| LocalStore.TasksDeleteMissing | src/services/localStorage.js:71-75 | deleting an id no task has leaves the list unchanged |
| LocalStore.TasksDeleteThenGet | src/services/localStorage.js:71-82 | after `delete(id)`, `getById(id)` fails |
| LocalStore.TasksAddThenGet | src/services/localStorage.js:48-82 | a task added under a fresh clock id is what `getById` returns for it |
| LocalStore.TasksUpdateThenGet | src/services/localStorage.js:60-82 | after an update that keeps the id, `getById` returns the merged record |
| Phone.DialOf | src/components/ContactModal.jsx:25-26 | the dial code of the table country, `''` for an unknown code |
| Phone.Compose | src/components/ContactModal.jsx:37 | `''` without digits; otherwise the dial code followed by exactly the digits |
| Phone.Strip | src/components/ContactModal.jsx:23-27 | `''` for an empty number; otherwise the number without the first occurrence of the dial code, trimmed |
| Phone.LocalNumber | src/components/ContactModal.jsx:23-27 | `''` for an empty number, and never surrounding whitespace |
| Phone.InlineLocalNumber | src/pages/Contacts.jsx:398-402 | the same without the fallback, so a non-empty number needs a table country |
| Phone.ReplaceEmpty | src/components/ContactModal.jsx:26 | `s.replace('', '')` is `s` |
| Phone.StripEmpty | src/components/ContactModal.jsx:26 | with the fallback `''` only the trim applies |
| Phone.UnknownCountryTrims | src/components/ContactModal.jsx:25-26 | for a country missing from the table the local number is the trimmed phone |
| Phone.InlineAgrees | src/pages/Contacts.jsx:398-402 | for a table country both copies of `getLocalNumber` agree |
| Phone.StripCompose | src/components/ContactModal.jsx:26-37 | removing the dial code from a composed number gives back the digits |
| Phone.RoundTrip | src/components/ContactModal.jsx:23-39 | `getLocalNumber` inverts the phone composed by the handler, for any country code |
| Phone.InlineRoundTrip | src/pages/Contacts.jsx:398-415 | the inline copy inverts it for a table country |
| ContactForm.FindValue | src/components/ContactModal.jsx:25 | a non-string country value finds nothing |
| ContactForm.DialOfValue | src/components/ContactModal.jsx:25-26 | the dial code of the form's country |
| ContactForm.InitForm | src/components/ContactModal.jsx:10-20 | each of the nine fields comes from the contact when truthy and is its default otherwise: empty strings, `US` and United States |
| ContactForm.InitLocal | src/components/ContactModal.jsx:29 | the initial local number; the first render throws exactly for a truthy non-string phone |
| ContactForm.Init | src/components/ContactModal.jsx:10-29 | the modal opens on the initial form with `getLocalNumber` of its phone as the local number, and fails to open exactly when that call throws; a new contact opens on the default form with an empty local number |
| ContactForm.PhoneChange | src/components/ContactModal.jsx:32-39 | the local number is the input's digits; the phone is dial code and digits, or `''` without digits; it throws exactly when there are digits and the country is not in the table, and then leaves the form alone |
| ContactForm.CountryChange | src/components/ContactModal.jsx:41-51 | code, name and phone follow the chosen country, the phone rebuilt from the local number; all else is kept |
| ContactForm.ToRecord | src/components/ContactModal.jsx:58-59 | the nine form fields |
| ContactForm.Payload | src/components/ContactModal.jsx:57-63 | the form's fields plus the user id, with the table's country name |
| ContactForm.Submit | src/components/ContactModal.jsx:53-77 | rejected with the error toast exactly when there is no user or the country is not in the table; otherwise `update(contact.id, …)` for an existing contact and `add` for a new one |
| ContactForm.NewContactDefaults | src/components/ContactModal.jsx:10-29 | a new contact starts on the United States with an empty phone |
| ContactForm.PhoneChangeRoundTrip | src/components/ContactModal.jsx:23-39 | after a phone edit in a table country, `getLocalNumber` of the phone is the stored local number |
| ContactForm.CountryChangeIgnoresOldPhone | src/components/ContactModal.jsx:41-51 | the old phone has no influence on a country change |
| ContactForm.CountryChangeRoundTrip | src/components/ContactModal.jsx:23-51 | after a country change the local number is recovered from the rebuilt phone |
| InlineContactForm.InitFormFrom | src/pages/Contacts.jsx:385-395 | each of the eight fields comes from the contact when truthy and is its default otherwise, the country code read under the given key; the defaults are empty strings and `US` |
| InlineContactForm.InitFormAsWritten | src/pages/Contacts.jsx:391 | the country code is read from `countryCode`, `US` when that is falsy |
| InlineContactForm.InitForm | src/services/databaseService.js:28 | the country code is read from the stored `country_code`; every other field is as in the as-written form |
| InlineContactForm.Init | src/pages/Contacts.jsx:385-405 | the form opens on the initial form, read under `countryCode` as written or under the corrected `country_code`; the local number is `getLocalNumber` of the phone, `''` for an empty one |
| InlineContactForm.PhoneChange | src/pages/Contacts.jsx:408-415 | as in the other modal: digits, composed phone or `''`; it throws exactly with digits and no table country |
| InlineContactForm.CountryChange | src/pages/Contacts.jsx:417-425 | the code changes and the phone is rebuilt from the local number; nothing else changes |
| InlineContactForm.RecordWith | src/pages/Contacts.jsx:386-395 | the eight form fields, the country code under the given key |
| InlineContactForm.ToRecordAsWritten | src/pages/Contacts.jsx:436-439 | the submitted object carries the code as `countryCode` and has no `country_code` |
| InlineContactForm.ToRecord | src/services/databaseService.js:55 | the submitted object carries the code as `country_code`, and otherwise equals the as-written one |
| InlineContactForm.StoredCountryCounterexample | src/pages/Contacts.jsx:391 | as written, a stored Canadian contact opens on `US` and a save sends no `country_code`; reading and writing `country_code` keeps `CA` |
| InlineContactForm.SaveReopen | src/pages/Contacts.jsx:385-439 | a form with every field set reopens unchanged after a save under `country_code` |
| InlineContactForm.Submit | src/pages/Contacts.jsx:427-447 | rejected with `Please enter a valid phone number` exactly for an empty phone; otherwise an update of the existing contact or an add, the payload carrying the code as `countryCode` as written or as the corrected `country_code` |
| InlineContactForm.UnknownStoredCodeOpensAsWritten | src/pages/Contacts.jsx:391-405 | as written, a stored contact with a phone and the off-table `country_code` `ZZ` opens on `US`; read under `country_code` it cannot open |
| InlineContactForm.SameComposition | src/pages/Contacts.jsx:408-425 | both modals compose the same phone from the same country and input |
| InlineContactForm.NoDigitsRejected | src/pages/Contacts.jsx:408-433 | an edit without digits clears the phone and the submit refuses |
| InlineContactForm.PhoneChangeRoundTrip | src/pages/Contacts.jsx:398-415 | the local number is recovered from the phone after any edit in a table country |
| ContactsPage.DefaultFilters | src/pages/Contacts.jsx:38-42 | every country, by name, ascending |
| ContactsPage.CountryFromPhone | src/pages/Contacts.jsx:11-29 | a country exactly when the number parses to a table code, and then that table entry |
| ContactsPage.CountryName | src/pages/Contacts.jsx:88-89 | the resolved country's name, `''` without one |
| ContactsPage.FilteredContacts | src/pages/Contacts.jsx:66-94 | exactly the contacts matching the search and the country, each as often as stored, texts ordered for the name, email and country keys |
| ContactsPage.LowerContains | src/pages/Contacts.jsx:68-73 | a lower-cased text containing a term contains every part of it |
| ContactsPage.SearchNarrows | src/pages/Contacts.jsx:68-73 | a contact found by a term is found by any part of it |
| ContactsPage.LongerTermFewerContacts | src/pages/Contacts.jsx:66-79 | typing more never lengthens the list |
| ContactsPage.EmptySearchListsAll | src/pages/Contacts.jsx:66-79 | the empty search on all countries lists every contact |
| ContactsPage.UnknownSortKeepsOrder | src/pages/Contacts.jsx:91-92 | an unknown sort key keeps the stored order |
| ContactsPage.Options | src/pages/Contacts.jsx:98-100 | one option per resolving contact, each coming from a contact |
| ContactsPage.UniqueCountriesAsWritten | src/pages/Contacts.jsx:97-101 | every resolving contact contributes an option, sorted by name |
| ContactsPage.OptionsTwice | src/pages/Contacts.jsx:97-100 | two contacts with the same country contribute two equal options |
| ContactsPage.DuplicateOptions | src/pages/Contacts.jsx:97-101 | two United States numbers put United States in the filter twice |
| ContactsPage.UniqueCountries | src/pages/Contacts.jsx:97-101 | each resolved country once, sorted by name |
| ContactsPage.UniqueCountriesOnce | src/pages/Contacts.jsx:97-101 | an option appears once when some contact resolves to it and never otherwise |
| TasksPage.DefaultFilters | src/pages/Tasks.jsx:17-22 | all priorities and statuses, by due date, ascending |
| TasksPage.Rank | src/pages/Tasks.jsx:65-66 | high 3, medium 2, low 1, none for any other priority |
| TasksPage.Filtered | src/pages/Tasks.jsx:46-72 | exactly the tasks matching search, priority and status, each as often as stored |
| TasksPage.FilteredTasksAsWritten | src/pages/Tasks.jsx:46-72 | the list reading `contactName` and `dueDate` |
| TasksPage.FilteredTasks | src/pages/Tasks.jsx:46-72 | the list reading the stored `contact_name` and `due_date` |
| TasksPage.SortedByTitle | src/pages/Tasks.jsx:67-68 | sorting by title orders the titles in the chosen direction |
| TasksPage.SortedByPriority | src/pages/Tasks.jsx:64-66 | sorting by priority orders the ranks in the chosen direction |
| TasksPage.SortedByDueDate | src/pages/Tasks.jsx:62-63 | reading `due_date`, sorting by due date orders the dates |
| TasksPage.DueDateSortIgnoredAsWritten | src/pages/Tasks.jsx:62-63 | as written, the due-date sort of stored tasks keeps the stored order |
| TasksPage.ContactNameIgnoredAsWritten | src/pages/Tasks.jsx:49-52 | as written, a stored task is found only by title or description |
| TasksPage.ContactSearchCounterexample | src/pages/Tasks.jsx:52 | a task for contact Acme is not found by `acme` as written, but is when `contact_name` is read |
| TasksPage.EmptySearchListsAll | src/pages/Tasks.jsx:46-58 | the empty search on `all` lists every task |
| InteractionsPage.DefaultFilters | src/pages/Interactions.jsx:17-22 | all types and statuses, by date, descending |
| InteractionsPage.Order | src/pages/Interactions.jsx:89 | -1 exactly for `desc` |
| InteractionsPage.FilteredInteractions | src/pages/Interactions.jsx:76-100 | exactly the interactions matching search, type and status, each as often as stored, texts ordered for the type and status keys |
| InteractionsPage.SortedByDate | src/pages/Interactions.jsx:91-92 | sorting by date orders the dates in the chosen direction |
| InteractionsPage.UnnamedNeverListed | src/pages/Interactions.jsx:79-81 | an interaction without summary or contact name is never listed |
| InteractionsPage.EmptySearchListsNamed | src/pages/Interactions.jsx:76-87 | the empty search on `all` lists every interaction that has a summary or a contact name |
| InteractionsPage.UnknownSortKeepsOrder | src/pages/Interactions.jsx:97-98 | an unknown sort key keeps the stored order |
| Reports.InitialStats | src/pages/Reports.jsx:14-29 | every counter starts at zero |
| Reports.CalculateStats | src/pages/Reports.jsx:39-81 | the totals are the list lengths and every bucket counts exactly its tasks |
| Reports.CountSnoc | src/pages/Reports.jsx:64-81 | one more task adds one to each counter it falls in |
| Reports.StatusBuckets | src/pages/Reports.jsx:50-66 | the status buckets never exceed the total, and fill it when every status is known |
| Reports.PriorityBuckets | src/pages/Reports.jsx:55-69 | the priority buckets never exceed the total, and equal it when every priority is high, medium or low |
| Reports.OverdueNotCompleted | src/pages/Reports.jsx:78-80 | overdue and completed tasks together never exceed the total |
| Dashboard.OverdueAsWritten | src/pages/Dashboard.jsx:39-41 | the overdue counter as written, reading `dueDate` |
| Dashboard.OverdueAlwaysZeroAsWritten | src/pages/Dashboard.jsx:39-41 | as written, no stored task is ever counted overdue |
| Dashboard.OverdueCounterexample | src/pages/Dashboard.jsx:39-41 | a pending task due before now is counted by the corrected counter and not as written |
| Dashboard.Overdue | src/pages/Dashboard.jsx:39-41 | the corrected overdue counter, reading `due_date` |
| Dashboard.Completed | src/pages/Dashboard.jsx:42 | the completed counter never exceeds the total |
| Dashboard.Recent | src/pages/Dashboard.jsx:43-48 | at most five elements, taken from the list |
| Dashboard.LeftOutIndex | src/pages/Dashboard.jsx:45 | an element a prefix holds fewer times than the whole list sits after the prefix |
| Dashboard.RecentNewest | src/pages/Dashboard.jsx:43-48 | newest first, and nothing left out is newer than anything kept |
| Dashboard.Summarize | src/pages/Dashboard.jsx:36-49 | with the corrected overdue counter that reads `due_date` (see Findings): the totals are the lengths; overdue and completed together never exceed the total |
| Dashboard.AgreesWithReports | src/pages/Dashboard.jsx:36-42 | the corrected dashboard agrees with the reports page on totals, overdue and completed |
| TaskForm.DueDatePart | src/components/TaskModal.jsx:11 | `''` without a due date; otherwise exactly the part of its ISO form before the first `T`; none when the conversion throws |
| TaskForm.InitForm | src/components/TaskModal.jsx:8-17 | each of the seven text fields comes from the task when truthy and is its default otherwise (empty strings, medium, pending); the due date is the converted date part; it throws exactly when that conversion does |
| TaskForm.Reload | src/components/TaskModal.jsx:29-39 | an existing task resets the form, and a new task leaves it alone |
| TaskForm.ContactChange | src/components/TaskModal.jsx:83-90 | the id and name of the contact with the chosen id, `''` when there is none; nothing else changes |
| TaskForm.Payload | src/components/TaskModal.jsx:55-67 | the eight fields, the user, and both timestamps at now |
| TaskForm.Submit | src/components/TaskModal.jsx:51-81 | rejected exactly without a user; otherwise an update of the existing task or an add |
| TaskForm.ReloadDiscardsEdits | src/components/TaskModal.jsx:22-49 | edits made before the contacts load are lost for an existing task |
| TaskForm.ReopenRoundTrip | src/components/TaskModal.jsx:8-67 | reopening the form on the saved payload shows the submitted form |
| TaskForm.ClearContact | src/components/TaskModal.jsx:83-90 | choosing the empty option clears the contact |
| TaskForm.ChooseContact | src/components/TaskModal.jsx:83-90 | choosing a contact sets its id and name |
| InteractionForm.DatePart | src/components/InteractionModal.jsx:12-16 | `v?.split('T')[0]`: the date part of a string, `undefined` without one |
| InteractionForm.InitForm | src/components/InteractionModal.jsx:9-19 | each of the nine fields comes from the interaction when truthy (the two dates as their date parts) and is its default otherwise: meeting, today, 30 minutes, completed and empty strings; both dates carry no time |
| InteractionForm.ToRecord | src/components/InteractionModal.jsx:9-19 | the nine form fields |
| InteractionForm.Submit | src/components/InteractionModal.jsx:35-55 | rejected with `Please select a contact` exactly without a contact; an update exactly for a truthy id; otherwise an add |
| InteractionForm.NewFormNeedsContact | src/components/InteractionModal.jsx:9-41 | a new form cannot be saved until a contact is chosen |
| InteractionForm.IdlessInteractionAdded | src/components/InteractionModal.jsx:43-49 | an interaction without an id is added again |
| InteractionForm.ReopenRoundTrip | src/components/InteractionModal.jsx:9-49 | reopening the form on the submitted record shows the same form |

## Left out

- The phone-number parser of `getCountryFromPhone` (libphonenumber) is not part of this model. It is a parameter that reports a region code or nothing, and a throw counts as nothing. The flag component is left out.
- Clocks, random ids and `toISOString` are parameters: the clock id and `generateId`'s value, the ISO text of now, the millisecond time of now, and the start of the week.
- A date is the millisecond number `new Date(...)` stands for, or `None` when invalid. Date parsing itself is not modelled.
- `localeCompare` is code-point order and `toLowerCase` covers ASCII letters only, because locale collation and Unicode case mapping are not modelled.
- The JSON text round trip of `localStorage` is taken to be the identity.
- React state batching, effects, rendering, toasts and navigation are left out; each handler is a function from state to state.
- src/services/databaseService.js, the Supabase client, src/contexts/AuthContext.jsx and src/pages/Profile.jsx are not part of this model, apart from the `country_code` key under which the contacts service saves a contact's country. The signed-in user is an optional parameter.
- The interactions service is not part of this model. The interaction form stops at the save request it makes.
- The progress bars' percentages on the reports page use floating point and are left out.
- `parseInt` of the duration input is left out; the duration is a value the form holds.
- Reports.CalculateStats: a status or priority outside the three buckets creates a separate key in the source; the model counts only the three buckets.
- Fields that hold a non-string where the pages expect a string are left out: titles, names, emails, types and statuses are strings in the model.
- Countries.Entry answers any index of 19 or more with the last entry; only indices 0 to 19 are used.
- ContactForm.CountryChange and InlineContactForm.CountryChange require a table code, because the select offers only those; the source would throw on any other code.
- InlineContactForm.Init requires the first render not to throw: an empty phone, or a string phone under a table country read under the chosen key. As written the key is `countryCode`, which stored contacts lack, so the code falls back to `US` and the render does not throw for them.
- InteractionForm.InitForm requires both date fields to hold no number, on which `split` would throw during the first render.
- ContactForm.Submit and TaskForm.Submit do not model the `update` or `add` call failing, which their catch would also report.
- Sorting.SortBy: ECMAScript leaves the order implementation-defined for an inconsistent comparator, as `Sorting.ByKey` is when valid and invalid dates mix; the model's order there is one admissible choice, and the order lemmas require every date to be valid.
- Dashboard.Recent: the source sorts the loaded arrays in place; the model returns a new sequence, since nothing else reads them afterwards.

## Findings

| source | as written | input that shows it | evidently intended | confidence | as-written member | corrected member |
|---|---|---|---|---|---|---|
| src/pages/Dashboard.jsx:39-41 | the overdue counter reads `task.dueDate`, which stored tasks lack, so the date is invalid and nothing counts | a pending task with `due_date` before now | count tasks whose `due_date` is before now and that are not completed, as src/pages/Reports.jsx:78-80 does | not executed | Dashboard.OverdueAsWritten | Dashboard.Overdue |
| src/pages/Contacts.jsx:97-101 | `new Set` of freshly built objects compares by identity and removes no repeat | two contacts with United States numbers | each country once in the country filter | not executed | ContactsPage.UniqueCountriesAsWritten | ContactsPage.UniqueCountries |
| src/pages/Contacts.jsx:391,424 | the inline contact modal reads and submits the country code as `countryCode`, while the contacts service saves and returns `country_code`, so a stored contact reopens on `US` and an inline save sends no country code | a stored contact with `country_code` `CA` | read and submit `country_code`, as src/components/ContactModal.jsx does | not executed | InlineContactForm.StoredCountryCounterexample | InlineContactForm.InitForm |
| src/pages/Tasks.jsx:52,63 | search and sort read `contactName` and `dueDate`, which stored tasks lack, so contact search never matches and the due-date sort keeps the stored order | a task with `contact_name` `Acme` and the search `acme` | read `contact_name` and `due_date`, the keys the task form saves | not executed | TasksPage.FilteredTasksAsWritten | TasksPage.FilteredTasks |
