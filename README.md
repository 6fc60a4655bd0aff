# Equipment passports, modelled in Dafny

This project models the record-keeping core of a Django application for
equipment "passports". A passport is a database row describing one piece of
equipment, together with its maintenance works. The model covers:

- the ownership rules that decide which rows a user sees;
- the filters, ordering and pagination of the list and search pages;
- the REST viewsets, which keep a JSON "mirror" file of every passport in
  step with the database;
- the file-level bookkeeping: the mirror, an append-only history, and the
  field diff;
- the management command that removes orphaned mirror and history files;
- the data-model constraints: the status choices and their default,
  unique type names, and SET_NULL and (assumed) CASCADE on deletion.

The database is the class `Store.Database`. Its passports and works are
sequences in table order, and its users and types are maps by primary key.
`Store.Database.Valid` holds the primary keys of both tables, the unique
type name and every reference, and each of its methods proves that it keeps
them. The passport directory is the
class `Utils.FileStore`: a flag for whether the directory exists, and a map
from file name to decoded document. Views are functions, or methods where
the code narrows a queryset step by step. Each takes the store, the
requester and the request parameters.

Inputs from outside the program are parameters:

- the current time, `now`;
- the database's case folding behind `icontains`, `lower`;
- the HTTP method;
- the resolved page number;
- the set of file names whose `os.remove` raises `OSError`, `fails`.

Modules follow the source files:

| module | file | models |
|---|---|---|
| `Common` | common.dfy | Option, sequence filtering, string prefix, substring and order helpers |
| `Users` | users.dfy | users/models.py |
| `Models` | models.dfy | passports/models.py |
| `Store` | store.dfy | the database tables and their referential actions |
| `Utils` | utils.dfy | passports/utils.py |
| `Views` | views.dfy | passports/views.py |
| `ApiViews` | api_views.dfy | passports/api_views.py |
| `Cleanup` | cleanup.dfy | passports/management/commands/cleanup_orphaned_files.py |

## Model

| member | source | states |
|---|---|---|
| Users.IsAdmin | users/models.py:11 | The `is_admin` property: staff, superuser, or a member of the "Администраторы" group; its properties are stated by `Users.AdminGrounds`. |
| Users.AdminGrounds | users/models.py:11 | Each of staff, superuser and membership of "Администраторы" makes a user admin, and a user with none of the three is not admin. |
| Users.PrivilegedIsAdmin | users/models.py:11 | Every superuser or staff user (the test the views use) is admin, but a plain member of the administrators group is admin without being privileged. |
| Models.ParseStatus | passports/models.py:14-19 | A code parses exactly when it is one of the four stored choices, and parses to the status with that code. |
| Models.StatusCodesRoundTrip | passports/models.py:14-19 | Every status's code is one of the four choices, is non-empty and parses back to that status. The default status is `in_operation`. |
| Models.StatusOrDefault | passports/models.py:36 | An omitted status becomes `in_operation`, and a given one is kept. |
| Models.PassportStr | passports/models.py:48-49 | A passport displays as its name, then " (", then its serial number, then ")". |
| Models.PassportStrSeparatesSerials | passports/models.py:48-49 | Two passports of the same name display alike exactly when their serial numbers are equal. |
| Models.NewPassport | passports/api_views.py:27-28 | A created row has the requester as creator and `created_at` equal to `updated_at` equal to `now`. Its status defaults to `in_operation`, and its other writable fields are the submitted ones. |
| Models.UpdatedPassport | passports/api_views.py:31-32 | An update keeps id, creator and creation time, sets `updated_at` to `now`, keeps the stored status when none is submitted, and takes every other writable field from the submission. For a partial update the submission is taken to be already merged with the stored row, as the serializer's update does. |
| Models.ResubmitChangesOnlyUpdatedAt | passports/models.py:40 | Resubmitting a passport's own fields changes only `updated_at`. |
| Models.TypeStr | passports/models.py:10-11 | `EquipmentType.__str__`, the type's name; `Store.TypeStrIdentifies` states that it identifies a type. |
| Store.TypeStrIdentifies | passports/models.py:5-11 | Two types of one table display alike exactly when they are the same type, since a type displays as its name and names are unique. |
| Store.ClearType | passports/models.py:21-27 | SET_NULL on the type: no passport keeps the deleted type, a passport of another type is unchanged, and apart from the type every row is unchanged. |
| Store.ClearPassportCreator | passports/models.py:38 | SET_NULL on a passport's creator: no row keeps the deleted user, and apart from the creator every row is unchanged. |
| Store.ClearTypeCreator | passports/models.py:7 | SET_NULL on a type's creator: the same keys, no type keeps the deleted user, apart from the creator every type is unchanged, and a type of another creator is unchanged altogether. |
| Store.ClearWorkCreator | passports/api_views.py:77 | SET_NULL on a work's creator: no work keeps the deleted user, apart from the creator every work is unchanged, a work of another creator is unchanged altogether, and the work keys stay unique. |
| Store.ReplacePassport | passports/api_views.py:32 | Writing back by primary key keeps every row's id and position, replaces exactly the rows with the written id, keeps the keys unique, and leaves the written row in the table when its id was there. |
| Store.ReplaceWork | passports/api_views.py:81 | Writing a work back keeps every entry's id and position, replaces exactly the entries with its id, keeps the keys unique, and leaves the written entry in the table when its id was there. |
| Store.WorksOf | passports/utils.py:33 | `passport.maintenance_works.all()` holds exactly the works pointing at that passport. |
| Store.DeleteTypeConsistent | passports/models.py:21-27 | Deleting a type with SET_NULL on its passports keeps every key and reference constraint. |
| Store.DeleteUserConsistent | passports/models.py:38 | Deleting a user with SET_NULL on their passports, types and works keeps every constraint. |
| Store.DeletePassportConsistent | passports/views.py:153 | Deleting a passport with its works (the cascade) keeps every constraint. |
| Store.ClearTypeKeepsRows | passports/models.py:21-27 | SET_NULL on a type deletion keeps every passport row: the same ids are present before and after. |
| Store.Database.InsertType | passports/models.py:5 | An insert succeeds exactly when the key and the name are both new. Otherwise nothing changes. The database stays consistent. |
| Store.Database.DeleteType | passports/models.py:21-27 | Removes the type and clears it from its passports. Nothing else changes, and the database stays consistent. |
| Store.Database.DeleteUser | passports/models.py:38 | Removes the user and clears it as creator everywhere, keeping every row. |
| Store.Database.InsertPassport | passports/api_views.py:28 | Appends the row. The other tables are unchanged, and the database stays consistent. |
| Store.Database.UpdatePassport | passports/api_views.py:32 | Writes back the row of that id. The other tables are unchanged, and the database stays consistent. |
| Store.Database.DeletePassport | passports/views.py:153 | Removes the row and, by cascade, its works. The database stays consistent. |
| Store.Database.InsertWork | passports/api_views.py:77 | Appends a work of an existing passport under a fresh key. The other tables are unchanged, and the database stays consistent. |
| Store.Database.UpdateWork | passports/api_views.py:81 | Writes back the work of that id. The other tables are unchanged, and the database stays consistent. |
| Store.FilterKeepsUniqueWorkIds | passports/api_views.py:83-86 | Removing work entries, one or by cascade, keeps the work keys unique. |
| Store.Database.DeleteWork | passports/api_views.py:86 | Removes the work rows of that id. The other tables are unchanged. |
| Utils.FileNamesDistinct | passports/utils.py:57 | Different ids have different mirror names and different history names, and no well-formed id's mirror is anyone's history file. |
| Utils.UserName | passports/utils.py:25 | The creator appears as null exactly when there is no creator. |
| Utils.TypeName | passports/utils.py:15 | The type appears as null exactly when there is no type. |
| Utils.CostField | passports/utils.py:40 | A missing or zero cost appears as null, and any other cost is kept. |
| Utils.Project | passports/utils.py:12-46 | The `passport_data` dictionary `save_passport_to_file` builds; its contents are stated by `Utils.ProjectionContents` and `Utils.ProjectionDeterminesRow`. |
| Utils.ProjectWork | passports/utils.py:34-45 | A work's entry keeps its id, type, date, responsible person, description, materials, creation time and custom fields. Its cost is null exactly when missing or zero and the cost otherwise, and its creator is null exactly when unset or unknown and the creator's username otherwise. |
| Utils.ProjectionContents | passports/utils.py:12-46 | The mirror of a consistent row keeps its id, name, serial and inventory numbers, description, location, responsible person, status code, last maintenance date, creation and update times and custom fields, and both dates. The type and the creator are null exactly where the row's reference is null, and otherwise the type's name and the creator's username. It has one works entry per work of the passport, in table order, each the work's entry as above. |
| Utils.ProjectionDeterminesRow | passports/utils.py:12-30 | Two consistent rows with the same mirror agree on every column the mirror records. |
| Utils.LoadFrom | passports/utils.py:55-63 | `load_passport_from_file`: nothing without the mirror file, else its content; stated by `Utils.LoadAfterSave` and `Utils.MissingFiles`. |
| Utils.HistoryFrom | passports/utils.py:76-83 | `get_passport_history`: `[]` without a history file, else its list; stated by `Utils.MissingFiles` and `Utils.HistoryAppendOnly`. |
| Utils.MissingFiles | passports/utils.py:76-83 | Without a history file the history is `[]`, and without a mirror the load gives nothing. |
| Utils.LoadAfterSave | passports/utils.py:55-63 | A load after a save returns the projection written. The save changes no other passport's mirror and no history. |
| Utils.DeleteEffects | passports/utils.py:66-73 | After a delete the mirror is gone and a second delete changes nothing. The history and other mirrors are untouched. |
| Utils.HistoryAppendOnly | passports/utils.py:86-100 | An append makes the history one entry longer, keeps the earlier entries in order and puts the new one last. It changes no other history and no mirror. |
| Utils.FileStore.SavePassport | passports/utils.py:8-52 | The loop builds one entry per work, and the mirror file becomes the projection of the passport. A missing directory changes nothing. |
| Utils.FileStore.DeleteMirror | passports/utils.py:66-73 | Reports whether `<id>.json` existed and removes it. Nothing else changes. |
| Utils.FileStore.AddHistoryEntry | passports/utils.py:86-100 | The history file becomes the old history plus the entry with `now`, the username and the changed fields. Nothing changes when the file holds anything but a list of history entries. |
| Utils.ChangedKeysMembers | passports/utils.py:103-109 | A key is reported exactly when some item under it differs from `new_data.get(key)`. |
| Utils.ChangedKeysProperties | passports/utils.py:105-109 | Only keys of `initial_data` are reported. A key missing from `new_data` is reported exactly when its initial value is not `None`. With nothing changed the result is empty. |
| Utils.GetChangedFields | passports/utils.py:103-109 | The loop returns the differing keys in `initial_data`'s order: exactly the keys some item of which differs. |
| Views.Find | passports/views.py:115 | Finds a row exactly when one with that id exists, and returns a row of the table with that id. |
| Views.CanAccess | passports/views.py:117 | The per-row access test of the view, edit and delete pages: superuser, staff or the row's creator; stated by `Views.Authorize`. |
| Views.Authorize | passports/views.py:114-118 | 404 exactly for an unknown id. With unique keys, it permits exactly when the requester is superuser, staff or the row's creator, and forbids otherwise. |
| Views.PassportScope | passports/views.py:32-35 | The scoped rows are the table narrowed to what the requester may see, and the whole table for staff or superuser. |
| Views.SortKeyOf | passports/views.py:49-54 | `oldest` orders by creation ascending, `name` by name, and any other value newest first. |
| Views.Sort | passports/views.py:49-54 | The result is ordered by the key, and is a permutation of the filtered rows. |
| Views.Page | passports/views.py:56-58 | A page holds at most ten rows, the consecutive rows from `index * 10`. A page is full when enough rows follow, and non-empty when any do. |
| Views.RowOnPage | passports/views.py:56-58 | Row `k` is at position `k % 10` of page `k / 10`. |
| Views.IContains | passports/views.py:42-46 | An `icontains` lookup: the case-folded query is a substring of the case-folded field. |
| Views.MatchesText | passports/views.py:40-47 | The text filter of the list page: the query occurs, case-folded, in the name, serial number, inventory number, description or type name; stated by `Views.PassportList`. |
| Views.ListMatch | passports/views.py:32-47 | The rows the list page keeps: in the requester's scope, of the status unless `all`, and matching the text unless it is empty; stated by `Views.PassportList`. |
| Views.PassportList | passports/views.py:26-58 | The list is the requester's scope narrowed by status (unless `all`) and by text (unless empty), ordered by the sort key, of which the requested page is shown. |
| Views.EmptyStatusMatchesNothing | passports/views.py:37-38 | A status parameter given but empty keeps no passport. |
| Views.SearchNarrow | passports/views.py:83-102 | Each non-empty parameter narrows the rows by its own lookup, and an empty one changes nothing. |
| Views.PassportSearch | passports/views.py:68-108 | The result is the conjunction of the scoping and every non-empty filter, with an exact date match, and the count is its length. |
| Views.EmptySearchIsScope | passports/views.py:78-102 | With no parameter given, search returns exactly the requester's scope. |
| Views.DeletePassport | passports/views.py:145-156 | 404, 403 and 400 each leave the database unchanged. 200 comes exactly for a permitted DELETE, and removes exactly that row and its works. |
| ApiViews.Permissions | passports/api_views.py:15-20 | Every action requires authentication and none requires admin status. |
| ApiViews.OnlyAuthenticationRequired | passports/api_views.py:15-20 | An action is permitted exactly for authenticated requesters, whatever the action and the staff flag. |
| ApiViews.WorkScope | passports/api_views.py:71-74 | The work queryset is the table narrowed to what the requester may see, and the whole table for staff or superuser. |
| ApiViews.ScopesAgree | passports/api_views.py:22-25 | A passport and a work with the same creator are both in or both out of the requester's querysets. |
| ApiViews.GetPassport | passports/api_views.py:41 | An object found through the scoped queryset is a row of that id which the requester may access. |
| ApiViews.GetPassportMatchesGuard | passports/api_views.py:22-25 | The API's scoped lookup finds a passport exactly when the HTML views' guard permits it, and finds the same row. |
| ApiViews.GetWork | passports/api_views.py:71-74 | A work is found exactly when a work of that id in the requester's scope exists. |
| ApiViews.FileDataReply | passports/api_views.py:39-43 | 404 exactly out of scope. Otherwise the reply is what loading the mirror of that id gives: its content, or null exactly when there is no mirror file. |
| ApiViews.FileDataAfterSave | passports/api_views.py:39-43 | After a mirror save, `file_data` returns the projection saved. |
| ApiViews.MaintenanceWorksReply | passports/api_views.py:45-63 | 404 exactly out of scope. Otherwise the reply is the passport's works, narrowed by type, start and end date where each is given. |
| ApiViews.EmptyWindow | passports/api_views.py:57-60 | A start date after the end date yields no works. |
| ApiViews.NewPassportNoWorks | passports/api_views.py:27-29 | A new passport has no works, so its first mirror lists none. |
| ApiViews.CreatePassport | passports/api_views.py:27-29 | Inserts the row with the requester as creator, and the mirror becomes its projection (with no works). |
| ApiViews.UpdatePassport | passports/api_views.py:31-33 | 404 out of scope. Otherwise writes back the updated row, and the mirror becomes its projection. |
| ApiViews.DestroyPassport | passports/api_views.py:35-37 | 404 out of scope. Otherwise removes the mirror, then the row and its works. The history file stays. |
| ApiViews.DestroyLeavesNoPassport | passports/api_views.py:35-37 | After a destroy no row of that id is left and no mirror file of it, so `file_data` on the remaining table answers 404, and the history is unchanged. |
| ApiViews.Owner | passports/api_views.py:78 | A work's passport exists exactly when its row does, and has the work's passport id. |
| ApiViews.CreateWork | passports/api_views.py:76-78 | Inserts the work under a fresh key, with the requester as creator and `now` as creation time (the serializer's read-only fields), and rewrites the owner's mirror, which now lists the work. |
| ApiViews.UpdateWork | passports/api_views.py:80-82 | 404 out of scope. Otherwise writes back the work (id, creator and creation time kept), and rewrites the owner's mirror. |
| ApiViews.DestroyWork | passports/api_views.py:84-87 | 404 out of scope. Otherwise removes the work first, then rewrites the owner's mirror. |
| ApiViews.DestroyedWorkNotMirrored | passports/api_views.py:84-87 | The mirror written after a work's deletion lists no work of that id. |
| Cleanup.BeforeDot | passports/management/commands/cleanup_orphaned_files.py:21 | The text before the first dot: a dot-free prefix, followed by a dot when shorter. |
| Cleanup.RemoveAll | passports/management/commands/cleanup_orphaned_files.py:23 | `replace('_history', '')` never lengthens the text. |
| Cleanup.FileId | passports/management/commands/cleanup_orphaned_files.py:19-24 | Only `.json` names give an id. A name whose text before the first dot holds no `_history` gives that text. |
| Cleanup.MirrorFileId | passports/management/commands/cleanup_orphaned_files.py:21-24 | `X.json` yields `X` for a well-formed id `X`. |
| Cleanup.HistoryFileId | passports/management/commands/cleanup_orphaned_files.py:21-24 | `X_history.json` yields `X` too, so both files of a passport give its id. |
| Cleanup.FileIds | passports/management/commands/cleanup_orphaned_files.py:17-24 | The id set holds the extracted id of every `.json` name, and nothing else. |
| Cleanup.Removed | passports/management/commands/cleanup_orphaned_files.py:28-36 | The loop removes only existing files that do not raise. |
| Cleanup.Counted | passports/management/commands/cleanup_orphaned_files.py:32-37 | The counted ids are orphans. |
| Cleanup.RemovedFor | passports/management/commands/cleanup_orphaned_files.py:33-36 | One turn removes only existing removable files, and nothing at all when the mirror's removal raises. |
| Cleanup.TurnOnRemaining | passports/management/commands/cleanup_orphaned_files.py:33-36 | A turn run on the directory left by earlier turns removes what the turn says of the original directory. So the outcome does not depend on the loop order. |
| Cleanup.CollectIds | passports/management/commands/cleanup_orphaned_files.py:17-24 | The listing loop builds the set of extracted ids (with the corrected extraction). |
| Cleanup.RemoveOrphan | passports/management/commands/cleanup_orphaned_files.py:29-41 | Removes the orphan's mirror, then its history, where present. An `OSError` ends the turn, and the orphan is counted exactly when neither removal raised. |
| Cleanup.RemoveOrphans | passports/management/commands/cleanup_orphaned_files.py:28-41 | Whatever the order, the directory loses exactly the orphans' removable files, and the count is the number of orphans processed without error. |
| Cleanup.Handle | passports/management/commands/cleanup_orphaned_files.py:10-50 | The orphans are the corrected file ids (`Cleanup.FileIdFixed`) minus the database ids, and their files are removed as above. A missing directory gives count 0 and no change. |
| Cleanup.CountBounds | passports/management/commands/cleanup_orphaned_files.py:37 | The count is at most the number of orphans, and equals it when no removal raises. |
| Cleanup.LiveFilesAsWritten | passports/management/commands/cleanup_orphaned_files.py:13-36 | With the code's extraction, a live passport's mirror is never removed. Its history is removed only when `<id>_history` is itself an orphan. |
| Cleanup.StrayRemoval | passports/management/commands/cleanup_orphaned_files.py:23 | A text built around one occurrence of the pattern still contains the pattern after one replacement pass. |
| Cleanup.StrayFileId | passports/management/commands/cleanup_orphaned_files.py:21-24 | The stray name `X__historyhistory.json` yields the id `X_history`. |
| Cleanup.StrayNameRemovesLiveHistory | passports/management/commands/cleanup_orphaned_files.py:21-36 | With `X` live and a stray file present, the code treats `X_history` as an orphan and removes the live passport's history. |
| Cleanup.HistoryIsMirrorOf | passports/management/commands/cleanup_orphaned_files.py:29-30 | `X_history.json` is the mirror name of the id `X_history`. |
| Cleanup.FileIdFixed | passports/management/commands/cleanup_orphaned_files.py:21-24 | The corrected extraction yields what the code's does, except that it drops an id that still holds `_history`. |
| Cleanup.FixedFileIds | passports/management/commands/cleanup_orphaned_files.py:17-24 | No id extracted with the correction holds `_history`. |
| Cleanup.FixedFileIdsWithin | passports/management/commands/cleanup_orphaned_files.py:17-24 | The corrected extraction only drops ids. |
| Cleanup.FixedCleanupSparesLiveFiles | passports/management/commands/cleanup_orphaned_files.py:26-36 | With the corrected extraction, neither the mirror nor the history of a live, well-formed passport is ever removed. |

## Left out

- Templates, `messages`, redirects, JSON response bodies, URL routing and the admin console: framework glue with no logic.
- Form and serializer validation (passports/forms.py, passports/serializers.py): it is done by Django form and Django REST framework serializer code outside this repository. The model takes already-validated fields (`Models.PassportFields`), and the date query parameters arrive already parsed as optional dates. For an update, a field the request omits is already filled with the stored value (`ModelSerializer.update` keeps it); only `status` is left optional, for the model default on creation.
- The `create_passport` and `edit_passport` form handling. Only `edit_passport`'s access guard is modelled (`Views.Authorize`); `create_passport` has none beyond `@login_required`.
- passports/management/commands/fix_history.py: it only prints history lengths.
- Real file I/O and JSON encoding: a file is its decoded document (`Utils.Doc`), and ISO rendering of dates is not modelled.
- `datetime.now()`: the time is the parameter `now`.
- `float(work.cost)`: the cost is an integer amount, and only the rule "zero or missing becomes null" is kept.
- Case folding behind `icontains`: the parameter `lower` stands for it.
- `Paginator.get_page`'s handling of invalid and out-of-range page numbers: the model takes a resolved 0-based page index.
- Photo uploads and concurrent writers.
- `OSError` from file operations other than the cleanup command's removals: writes fail only when the directory is missing.
- Stdout messages of the cleanup command.
- The `MaintenanceWork` model and the `custom_fields` attribute are used but not defined in passports/models.py. Their fields are those passports/utils.py reads.
- Store.Database.DeletePassport: assumes CASCADE from a work to its passport; the MaintenanceWork class that would declare it is not defined in passports/models.py.
- Store.ClearWorkCreator: assumes SET_NULL on a work's creator. The MaintenanceWork model class that would declare it is not defined in passports/models.py.
- `delete_passport_file` and `EquipmentType` are referenced without an import (passports/api_views.py:36, passports/views.py:104). The model gives them their evident meaning rather than the resulting runtime error.
- ApiViews.UpdateWork: a work moved to another passport has only its new owner's mirror rewritten, as in the code. The old owner's mirror keeps listing it.
- Views.MatchesText: the list text search does not look at `location`, following the code.
- Views.Sort: ties are not stated to keep table order, since Django's `order_by` does not promise it either.
- The code does not check that commissioning follows production, so neither does the model.
- Store.WorksOf: the works of a passport come in table order. The MaintenanceWork model class is not defined in passports/models.py, so any `Meta.ordering` it declares is not modelled.
- Utils.MirrorName: `save_passport_to_file` takes its path from `get_passport_file_path()` (passports/utils.py:10), which passports/models.py does not define. The model uses `<id>.json`, the name `load_passport_from_file` and `delete_passport_file` read (passports/utils.py:57, 68).
- Common.LexLe: `order_by('name')` collates by raw character code. A database collation that orders Cyrillic or mixed-case names differently is not modelled.
- Utils.ChangedKeys: values are compared structurally. Python's cross-type equalities, such as `1 == 1.0` or `1 == True`, are not modelled.
- Models.NewPassport: `created_at` and `updated_at` are both the one time `now`. Django reads the clock once per field, so the two may differ by a moment.
- Utils.HistoryFrom: a history file holding a list of anything other than history entries counts as a foreign document, so `Utils.FileStore.AddHistoryEntry` refuses it, whereas Python's `append` would extend it. Arbitrary JSON lists are not modelled.

## Findings

| source | as written | input that shows it | evidently intended | confidence | as-written member | corrected member |
|---|---|---|---|---|---|---|
| passports/management/commands/cleanup_orphaned_files.py:21-24 | `file_id.replace('_history', '')` removes one pass of occurrences, so an extracted id can still hold `_history`, and `<X>_history`'s mirror name is `X`'s history file | live passport `X` with `X.json`, `X_history.json` and a stray `X__historyhistory.json`: the stray yields the orphan `X_history`, and the loop removes `X_history.json` | only `X.json` and `X_history.json` name passport `X`; an extracted id still holding `_history` names no passport and is skipped | low: needs a stray file name; not executed | Cleanup.StrayNameRemovesLiveHistory | Cleanup.FixedCleanupSparesLiveFiles |

`Cleanup.Handle` and `Cleanup.CollectIds` use the corrected extraction
`Cleanup.FileIdFixed`. `Cleanup.FileId`, `Cleanup.FileIds` and
`Cleanup.LiveFilesAsWritten` state the code as written.
