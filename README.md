# TSP Discord bot: grade reports, profile store, roles and message repacking

This project models the core of a Discord bot for students of Télécom SudParis and
Institut Mines-Télécom Business School, and proves properties of that model. The model
has seven modules:

- `Bulletin` (bulletin.dfy, cogs/notes.py:20-86). The grade report is a read-only view over the JSON
  payload the grade portal returns. It models:
  - the course rows: category or course, the grade ("Validé", a number or nothing), the stripped code and name, and the nullable credits;
  - the count of graded courses;
  - the rank, read from the leftmost `<1-3 digits> / <1-3 digits>` in the rank text.

  Every subscript that can fail raises the Python exception it would raise, as an `Error`.
- `NotesCog` (notes_cog.dfy, cogs/notes.py:89-280). The cog is a class holding:
  - the per-member cache of reports, with its four-hour lifetime;
  - the watched users' last reports;
  - the profile store.

  Its methods:
  - `GetBulletin` and `Refresh` use and evict the cache;
  - `UpdateBulletin` is the retry loop, with a delay that grows linearly;
  - `CacheNotesForRole` is the warm-up of a school's role;
  - `NotifyNotesUser` is the change detection that compares a watched user's new report with the old one.
- `Storage` (storage.dfy, utils/storage.py). The profile store is a dictionary keyed by `str(member id)`. The module also converts between a `Profile` and its record.
- `ProfileCog` (profile_cog.dfy, cogs/profile.py):
  - the directory lookup;
  - the first-match rule that turns a directory title into a class role;
  - `get_roles`, which counts the roles handed out;
  - profile creation, and the three edit commands.
- `Context` (context.dfy, utils/context.py). `send_to` prefixes the mention, and `send` moves content over 1990 characters into a `message.txt` attachment.
- `Builtins` and `Wrappers`. These hold the Python semantics the rest relies on:
  - truthiness;
  - `dict[key]`;
  - `str.strip`;
  - `int()` and `float()` on text;
  - `str(n)`;
  - `int(time.time())`;
  - an Option and a Result type.

The outside world is passed in as parameters:
- The portal's answer to each request is a `Result<Json, Error>`.
- The clock is a `real` number of seconds.
- The random delay factor is given for each attempt.
- The school directory is a function from a search filter to the entries found.
- The guild is a map from role id to members.

`update_bulletin` retries forever, so the model runs it over a finite sequence of attempts. A task that is still retrying when its attempts run out is `Pending`. The warm-up's `asyncio.gather` runs its tasks one after the other in member order.

Points of the code's behaviour that the model keeps as written:
- A cache entry expires only when `creation + 14400 < now`, which is strict. An entry whose `creation` is 0 counts as stale.
- The warm-up returns the number of members it started a task for, and only once every task has stored a report, so that number is also the number that succeeded. A task that raises makes the warm-up raise, and a task that keeps retrying keeps it waiting.
- A watched user's stored report is replaced only when the graded-course count changed.
- A warm-up that raises is caught (cogs/notes.py:166-170), so the alert then reports 0 cached reports.
- When the content is too long, `send` raises on a list of exactly ten files only. A longer list gets the `message.txt` attachment added in front (eleven files become twelve), and discord itself rejects such a list. Short content passes any list through unchanged.
- The role rule tests whether the directory title is a prefix of the group name, not the other way round. An empty or truncated title therefore gets the first role.

## Model

| member | source | states |
|---|---|---|
| Builtins.Index | cogs/notes.py:27 | `v[key]` succeeds exactly on a dict holding the key, with its value; KeyError on a dict without it, TypeError on anything else |
| Builtins.Strip | cogs/notes.py:72-73 | `strip()` returns a contiguous piece of the text with only whitespace around it, and the piece neither starts nor ends with whitespace |
| Builtins.StripKeeps | cogs/notes.py:72-73 | text whose ends are not whitespace is left unchanged by strip, so stripping twice is stripping once |
| Builtins.Decimal | utils/storage.py:37 | `str(n)` is a non-empty digit string with no leading zero whose value is n |
| Builtins.DecimalOfDigits | utils/storage.py:37 | `str(int(s)) == s` for every canonical digit string: the conversion is a bijection onto them |
| Builtins.DecimalInjective | utils/storage.py:37 | two different ids never give the same `str(id)` |
| Builtins.DigitsValueZero | cogs/notes.py:84 | a digit string is worth 0 exactly when all its digits are '0' |
| Builtins.ParseInt | cogs/notes.py:75 | `int(text)` fails only with ValueError |
| Builtins.ParseIntOfDecimal | cogs/notes.py:75 | `int(str(n)) == n` |
| Builtins.ParseFloat | cogs/notes.py:67 | `float(text)` fails only with ValueError |
| Builtins.DecimalValueZero | cogs/notes.py:84 | a decimal number is 0 exactly when every digit of it is '0', whatever its sign |
| Builtins.ParseFloatZero | cogs/notes.py:67-84 | the exact decimal value read from the text by `float(text)` is 0 exactly when every digit of the text is '0' |
| Builtins.ToInt | cogs/notes.py:75 | `int(v)` raises ValueError on unparsable text and TypeError on a value it cannot convert |
| Builtins.ToFloat | cogs/notes.py:67 | `float(v)` raises ValueError on unparsable text and TypeError on a value it cannot convert |
| Builtins.Trunc | cogs/notes.py:255 | `int(x)` rounds toward zero: within 1 of x on x's side of zero |
| Builtins.IndexOf | cogs/notes.py:67 | the position found holds the character and no earlier position does; None only when it does not occur |
| Storage.ProfileOf | utils/storage.py:7-10 | `Profile(d)` succeeds iff both credentials are present, raises KeyError otherwise; text credentials are kept as they are; `show_rang` is the truthiness of the stored value and defaults to True |
| Storage.ToDict | utils/storage.py:12-13 | `Profile(p.to_dict())` gives back p: every field round-trips |
| Storage.RecordRoundTrip | utils/storage.py:7-13 | reading a record and writing it back keeps its text credentials and a stored boolean rank preference, writes True for a missing one, and yields exactly the three keys |
| Storage.KeyParses | utils/storage.py:37 | the key of a member reads back as its id |
| Storage.KeysDistinct | utils/storage.py:37 | distinct members have distinct keys |
| Storage.ProfileIn | utils/storage.py:44-48 | reading a member's profile succeeds only for a member with a record, raises KeyError otherwise, and is the conversion of that record |
| Storage.Storage.constructor | utils/storage.py:20-21 | the store starts as the loaded dictionary |
| Storage.Storage.GetProfile | utils/storage.py:44-45 | `get_profile` is KeyError for a member without a usable record and otherwise that record's profile |
| Storage.Storage.SaveProfile | utils/storage.py:36-37 | the member's record becomes `p.to_dict()`, `get_profile` then returns p, and every other member's profile and presence are unchanged |
| Storage.Storage.CreateProfile | utils/storage.py:40-41 | stores the given user and password (a missing password as "None") with the rank shown, under that member's key only |
| Storage.PasswordText | utils/storage.py:41 | `str(password)` is the password, or "None" when there is none |
| Bulletin.RowsOf | cogs/notes.py:59 | iterating the rows succeeds on a list (its items) and on an empty dict or string (no rows); TypeError otherwise |
| Bulletin.RowAttributes | cogs/notes.py:60-61 | a row's attributes are read exactly when the row is a dict whose "@attributes" is a dict holding "textbox22", and are that dict; otherwise KeyError for a missing key and TypeError for a value that is not a dict |
| Bulletin.GradeOf | cogs/notes.py:63-69 | "Validé" gives the pass marker, a missing or falsy value gives None, any other value gives `float(value)` or its exception |
| Bulletin.GradeTextCounts | cogs/notes.py:63-84 | with grades read as exact decimal values, a grade text counts exactly when it is "Validé" or a number with a non-zero digit: "0" and "0.0" are read but not counted |
| Bulletin.StrippedEntry | cogs/notes.py:72-73 | reading the code or name succeeds exactly when the entry is present and is a str, and gives it stripped of surrounding whitespace; KeyError when it is missing, AttributeError when it is not a str |
| Bulletin.CreditsOf | cogs/notes.py:75 | ECTS is None exactly when "textbox22" is falsy, and otherwise `int(textbox22)`; it raises exactly when that conversion raises, with its exception |
| Bulletin.CreditsOfDecimal | cogs/notes.py:75 | credits written as the digits of n are read as n |
| Bulletin.NoteOf | cogs/notes.py:70-76 | an entry is a category exactly when "textbox22" is "", and has no credits exactly when "textbox22" is falsy |
| Bulletin.NoteOfFields | cogs/notes.py:63-76 | an entry carries its row's stripped code and name, its converted grade and `int(textbox22)` as credits when that is truthy, and a category never has credits |
| Bulletin.ParseNotesErrorPersists | cogs/notes.py:59-76 | once a row raises, `notes()` raises that same exception |
| Bulletin.ParseNotesStep | cogs/notes.py:59-76 | each further row either raises or appends its entries to those of the rows before it |
| Bulletin.Notes | cogs/notes.py:54-78 | the loop returns the entries of the rows in order, or the first row's exception |
| Bulletin.ParseNotesLast | cogs/notes.py:59-76 | a successful list is the list of all rows but the last, followed by the last row's entry |
| Bulletin.NotesLength | cogs/notes.py:59-76 | with categories, `notes()` has exactly one entry per row |
| Bulletin.NoteAtRow | cogs/notes.py:59-76 | with categories, entry i is the entry of row i |
| Bulletin.NotesOnePerRow | cogs/notes.py:59-76 | with categories, one entry per row, in row order |
| Bulletin.RowNoteOf | cogs/notes.py:60-76 | an entry produced for a row is the entry built from that row's attributes |
| Bulletin.Courses | cogs/notes.py:62 | an entry is a course entry exactly when it is an entry of the list that is not a category |
| Bulletin.NotesWithoutCategories | cogs/notes.py:62 | without categories, `notes()` is the full list with exactly the category entries dropped |
| Bulletin.RowNoteWithoutCategories | cogs/notes.py:61-62 | a row gives the same entry with or without categories, except that a category entry is dropped without them |
| Bulletin.CategoryRowSkipped | cogs/notes.py:60-62 | without categories a category row gives no entry and none of its other fields is read; with them it raises exactly when its entry cannot be built |
| Bulletin.CoursesReadWithoutCategories | cogs/notes.py:59-76 | when every row's attributes read and every non-category row's entry can be built, `notes(get_categories=False)` succeeds, whatever the category rows hold |
| Bulletin.CategoryRowAppended | cogs/notes.py:59-76 | a category row added to a report leaves `notes(get_categories=False)` unchanged, and makes `notes()` raise when its entry cannot be built |
| Bulletin.NotesWithoutCategoriesFails | cogs/notes.py:62 | if `notes()` raises without categories, it raises with them too |
| Bulletin.NotesWithoutCategoriesAreCourses | cogs/notes.py:62 | without categories, no entry is a category |
| Bulletin.CountGradedIsPositions | cogs/notes.py:82-85 | the count is the number of positions whose grade is truthy, and at most the number of entries |
| Bulletin.CountGradedAppend | cogs/notes.py:82-85 | the count of two lists joined is the sum of their counts |
| Bulletin.NotesCountIsGradedCourses | cogs/notes.py:80-86 | `notes_count` is the number of course entries of the full list whose grade is truthy |
| Bulletin.NotesCount | cogs/notes.py:80-86 | the counting loop returns `notes_count` or the exception of `notes()` |
| Bulletin.DigitRun | cogs/notes.py:45 | a run of at most max digits that stops only at a non-digit, the end, or the limit |
| Bulletin.MatchAt | cogs/notes.py:45 | a match at a position is a real occurrence of `digits / digits` there, with 1 to 3 digits in each group |
| Bulletin.MatchAtComplete | cogs/notes.py:45 | whenever an occurrence exists at a position, a match is found there, with the greediest first group and then the greediest second group |
| Bulletin.SearchFrom | cogs/notes.py:46 | the search returns the leftmost position with a match, or None when no position has one |
| Bulletin.DigitRunCovers | cogs/notes.py:45 | a run of digits no longer than the limit is counted whole |
| Bulletin.ShortDigitsBelow1000 | cogs/notes.py:45 | a group of at most three digits is worth less than 1000 |
| Bulletin.RankOfFails | cogs/notes.py:46-48 | reading the rank raises exactly when the text has no occurrence of the pattern |
| Bulletin.RankOfLeftmost | cogs/notes.py:45-48 | the rank read is the pair of numbers of an occurrence with none further left, whose groups are the longest that occur at that position, each below 1000 |
| Bulletin.RankOfSpec | cogs/notes.py:41-48 | `rang` raises exactly when the text has no occurrence; otherwise it returns the two numbers, below 1000, of the leftmost occurrence, taking at that position the longest first group and then the longest second group (so "8 / 209" gives 209, not 2 or 20) |
| Bulletin.NoMatchAtNonDigit | cogs/notes.py:45 | no occurrence starts at a non-digit |
| Bulletin.SearchSkips | cogs/notes.py:46 | the search passes over non-digits without changing its result |
| Bulletin.RankExample | cogs/notes.py:44-48 | "Rang : 8 / 209" gives (8, 209) |
| Bulletin.RankLongRunExample | cogs/notes.py:45-48 | "1234 / 5" gives (234, 5): a longer digit run is matched by its last three digits |
| Context.Send | utils/context.py:31-50 | `send` only ever raises InvalidArgument |
| Context.SendShort | utils/context.py:33 | content that is absent, empty or at most 1990 characters goes through with file and files untouched |
| Context.SendFails | utils/context.py:33-46 | `send` raises exactly when the content is too long and either both file and files are given or files holds exactly ten |
| Context.SendRepacks | utils/context.py:33-50 | too-long content is no longer sent as text: its `message.txt` comes first, followed by the given attachments in order; with a single file both go in the list of files, with a list it is put in front of the list, and with neither it is the single file |
| Context.SendKeepsFileLimit | utils/context.py:44-48 | the oversize path never turns a list of at most ten files into more than ten |
| Context.Addressed | utils/context.py:23-27 | the sent text is the given user's mention, or the author's when none is given, then " > ", then the message |
| Context.SendToKeepsMessage | utils/context.py:23-29 | the addressed message reaches discord whole, as text when it fits and as the first attachment otherwise |
| NotesCog.FreshUntilExpiry | cogs/notes.py:235-245 | an entry with non-zero creation is fresh exactly when `now <= creation + 14400` |
| NotesCog.Fetch | cogs/notes.py:253-254 | fetching succeeds exactly when the profile and the reply do, and otherwise raises the first of the two exceptions |
| NotesCog.AttemptsOf | cogs/notes.py:121-137 | a task makes no more attempts than it is given |
| NotesCog.TaskSettlesAtFirst | cogs/notes.py:121-137 | a task retries exactly while its attempts fail with Timeout, TypeError or JSON errors; it is pending iff all do, else it ends at the first that does not, storing its report or raising its exception |
| NotesCog.NoProfileRaisesAtOnce | cogs/notes.py:121-137 | a member without a usable profile raises KeyError after one attempt |
| NotesCog.DelayBounds | cogs/notes.py:118-137 | attempt k (from 1) sleeps between 5k and 20k seconds |
| NotesCog.Apply | cogs/notes.py:256 | a finished task stores its own entry under its member and leaves every other entry unchanged; a task that raised or is still retrying leaves the cache as it was |
| NotesCog.Combine | cogs/notes.py:139-141 | gather raises once any task raised, and returns a count only while every task finished, one more for each |
| NotesCog.SchoolRoleId | cogs/notes.py:148 | `ecole_roles[school]` is the role id of one of the two schools, KeyError for any other text and TypeError for an unhashable value |
| NotesCog.AlertRole | cogs/notes.py:148-150 | the alerted role, with its members, is the school's role when the guild has it, and the guild's default role otherwise; it is the default role exactly in that case or when the school's role id is the guild's |
| NotesCog.WarmTargetsMembers | cogs/notes.py:107-111 | a member is fetched for exactly when it is in the role, has a profile and is not excepted |
| NotesCog.WarmTargetsAppend | cogs/notes.py:107-111 | the selection keeps member order |
| NotesCog.WarmedExactly | cogs/notes.py:139-141 | the warm-up returns a count exactly when every task stored a report, and that count is the number of members selected |
| NotesCog.RaisesExactly | cogs/notes.py:139-140 | the warm-up raises exactly when one of its tasks raised |
| NotesCog.WarmCacheSpec | cogs/notes.py:117-140 | after the warm-up each selected member whose task finished has the entry it stored, and every other entry is unchanged |
| NotesCog.SymmetricDifference | cogs/notes.py:158 | a label is reported exactly when it is in one of the two sets but not both |
| NotesCog.CompareBulletins | cogs/notes.py:147-158 | no change exactly when the counts are equal; otherwise both counts and the symmetric difference of the graded course labels |
| NotesCog.PlanFor | cogs/notes.py:147-165 | the plan names the report's school and that school's alert role, raising when the school is not one of the two; the change is an addition exactly when the count grew, and warming happens exactly on an addition for a non-default role |
| NotesCog.Notes.constructor | cogs/notes.py:96-97 | the cog starts with an empty cache and no watched reports |
| NotesCog.Notes.Cached | cogs/notes.py:231-233 | the cache lookup is the member's entry, or None when there is none |
| NotesCog.Notes.GetBulletin | cogs/notes.py:247-257 | non-forced with a fresh entry: the cached report, with no fetch and no change; otherwise the fetch's result, stored with `int(now)` under that member only |
| NotesCog.Notes.Refresh | cogs/notes.py:279 | pops exactly that member's entry, KeyError when there is none, after which the member is never fresh |
| NotesCog.Notes.MembersToWarm | cogs/notes.py:107-111 | the filtering loop selects the role's members that have a profile and are not excepted, in order |
| NotesCog.Notes.UpdateBulletin | cogs/notes.py:117-137 | the retry loop ends as the attempts dictate, sleeps the drawn factor times 1, 2, 3, … and stores only a finished task's report |
| NotesCog.Notes.CacheNotesForRole | cogs/notes.py:104-141 | the warm-up's result and resulting cache are those of one task per selected member |
| NotesCog.Notes.NotifyNotesUser | cogs/notes.py:143-185 | the forced fetch, then on equal counts no notice and no change; on a change the notice of the plan, warming the role without the user, and the stored report replaced |
| NotesCog.AddedCourseIsReported | cogs/notes.py:147-160 | a newly graded course raises the count by one and is the whole reported difference |
| NotesCog.RemovedCourseIsReported | cogs/notes.py:147-160 | removing it is a removal reporting that same course |
| NotesCog.SwapIsSilent | cogs/notes.py:147 | replacing one graded course by another keeps the count, so nothing is reported |
| ProfileCog.SearchAttribute | cogs/profile.py:21-24 | the directory is searched by mail exactly when the login contains '@', and by uid otherwise |
| ProfileCog.SearchFilter | cogs/profile.py:21-24 | the filter is `(mail=login)` when the login contains '@' and `(uid=login)` otherwise, with the login as given |
| ProfileCog.GetLoginInfo | cogs/profile.py:19-31 | None exactly when the search finds nothing; otherwise the fields of the first entry found |
| ProfileCog.InfoOf | cogs/profile.py:30-31 | the display name is the first name, a space, then the last name; the first and last names are the entry's given name and surname, and mail, uid and title are the entry's |
| ProfileCog.FirstMatch | cogs/profile.py:164-170 | no role exactly when no group name starts with the title |
| ProfileCog.FirstMatchIsFirst | cogs/profile.py:164-166 | the role chosen is that of a group whose name starts with the title, and no earlier group's name does |
| ProfileCog.ShortTitlesGetFirstRole | cogs/profile.py:147-166 | an empty title, or "CL_FI-EI", gets the first class role |
| ProfileCog.FindRole | cogs/profile.py:164-170 | the for/else loop finds the first matching group's role |
| ProfileCog.SetUserRoles | cogs/profile.py:146-174 | adds a role exactly when the login is found and its title matches a group, and the role is that group's |
| ProfileCog.GrantsSpec | cogs/profile.py:135-142 | every role given goes to a member with a readable profile and is the role its login leads to; every member whose profile is readable and whose login leads to a role gets that role; there is one grant per such member, and no more grants than members |
| ProfileCog.GrantsLast | cogs/profile.py:136-142 | the last member adds its role to the others' exactly when `set_user_roles` accepts it |
| ProfileCog.PositionsLast | cogs/profile.py:136-142 | the accepted positions are those before the last member, plus the last one when it is accepted |
| ProfileCog.GrantsCount | cogs/profile.py:135-142 | there are as many grants as accepted member positions |
| ProfileCog.GrantsComplete | cogs/profile.py:136-142 | every member `set_user_roles` accepts is handed its role |
| ProfileCog.NoProfileNoGrant | cogs/profile.py:137-140 | a member without a readable profile is skipped |
| ProfileCog.Profiles.constructor | cogs/profile.py:43-44 | the cog works on the bot's store |
| ProfileCog.Profiles.GetRoles | cogs/profile.py:133-144 | the count is the number of members for which `set_user_roles` returns True, and the roles given are those the rule yields |
| ProfileCog.Profiles.Create | cogs/profile.py:59-70 | a profile is created exactly when the member has none, and an existing one is not overwritten |
| ProfileCog.Profiles.Edit | cogs/profile.py:72-81 | no profile: NoProfileError and nothing changes; an unreadable record: KeyError; otherwise the changed profile is saved |
| ProfileCog.Profiles.EditUser | cogs/profile.py:83-95 | only the login changes, and no other member's profile changes |
| ProfileCog.Profiles.EditPassword | cogs/profile.py:97-109 | only the password changes, and no other member's profile changes |
| ProfileCog.Profiles.EditShowRang | cogs/profile.py:111-123 | only the rank preference changes, and no other member's profile changes |

## Left out

- HTTP: the request to the grade portal (`get_bulletin_from_api`, cogs/notes.py:220-229) is not modelled. Its reply, a JSON value or the exception raised, is a parameter. Logging the returned HTML is left out.
- Discord calls are left out. These are channel sends, deleting the command message, typing, `add_roles`, `bot.get_user` and `get_channel`. The alert's message text is represented by its parts (the `Notice`), not by its formatting.
- Concurrency is left out: the semaphores, the interleaving of `asyncio.gather`'s tasks and cancellation. Tasks run one after the other. When one task raises while another would retry forever, the model reports the exception.
- `update_bulletin` retries forever. The model runs each task over a finite sequence of attempts, and a task still retrying at the end is `Pending`.
- The clock and randomness are parameters: `time.time()` is a `real` reading, and `random.randint(5, 20)` is a factor given for each attempt.
- The 10-minute loop, its `before_loop` seeding, `after_loop`, `cog_unload` and `cog_check` are scheduling and Discord plumbing (cogs/notes.py:101-102 and cogs/notes.py:187-218).
- Reading and writing profiles.json, and `get_all_profiles`, are file I/O and logging. The dictionary is the store.
- `moyenne`, the other `Bulletin` getters except `ecole` and `rang`, the `notes`, `resume`, `lsh` and `optique` commands: these are message formatting or jokes. The `rang` command (cogs/notes.py:290-297) and the owner command `cache_role` (cogs/notes.py:343-356) are Discord plumbing around modelled parts: the first replies with `rang` of `get_bulletin`, the second runs `cache_notes_for_role` with no exceptions, which is CacheNotesForRole with an empty exception list.
- Float grades are modelled only in plain decimal notation: no exponent, inf, nan, underscores or non-ASCII digits. `int()` likewise accepts only ASCII digits.
- Grades are read as exact decimal values (`real`), with no IEEE 754 rounding, overflow or underflow. A grade text such as "0." followed by 400 zeros and a 1 becomes 0.0 in Python and is then not counted, while the model reads it as non-zero and counts it.
- JSON numbers with a fraction, which `json.loads` turns into floats, are not part of the modelled JSON values. A grade or credit field holding such a number is not modelled.
- The rank pattern's `\d` is modelled as an ASCII digit. Python's `re` also matches any other Unicode decimal digit there, so a rank text written in such digits is not modelled.
- Profile records hold only text and booleans (`Text`, `Flag`), the values the program writes, and None (`Null`), which only the argument dict of `create_profile` or a hand-edited file holds. A profiles.json edited by hand to hold other values, or a record that is not a dict, is not modelled. Such a record would make `get_profile` raise TypeError, which `update_bulletin` would retry forever.
- The LDAP connection, and LDAP filter escaping and matching, are left out. The directory is a function from the filter text to the entries found.
- Discord's conversion of the `affichage_rang` argument to a bool is left out. The command receives the bool.
- The `profile` view command (cogs/profile.py:46-57) and `get_role` (cogs/profile.py:125-131) are left out. Each is a profile read followed by a reply, or a call of `set_user_roles`, which is modelled.
- The regex engine is modelled only for the rank pattern.
- The UTF-8 encoding of the `message.txt` attachment is left out, as are `send`'s extra keyword arguments and the warning it logs.
- The other cogs (moodle, trombi), utils/bot.py and main.py are not part of this model.
- Bulletin.School (`ecole`, cogs/notes.py:26-27) and Storage.Storage.HasProfile (`has_profile`, utils/storage.py:47-48) carry no contract of their own: each is a single lookup. The school read is stated through PlanFor, and HasProfile through Profiles.Create and Profiles.Edit, which branch on it.
- Bulletin.Rank, NotesCog.Notes.IsBulletinInCache, ProfileCog.RoleFor, ProfileCog.Grants and Context.SendTo carry no contract of their own. They compose modelled parts, and their properties are stated by RankOfSpec, FreshUntilExpiry, SetUserRoles, GrantsSpec and SendToKeepsMessage.
