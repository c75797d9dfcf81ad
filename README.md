# viewunit in Dafny

viewunit is a unit-testing helper for Flask views. `run_view(path, session=...,
user_id=..., **expects)` checks that every keyword is a known
`expect_*` name. It then prepares a test session, with an optional
logged-in user and session overrides, and issues one request. Afterwards
it checks the postconditions the keywords describe against what the
request left behind:

- the template rendered and its data;
- the redirect target;
- the session, the cookies and the response headers;
- the site data;
- database rows, queried through a registered select hook;
- the flashed messages.

A process-wide registry holds the application, the session-user setter
and the database select hook.

This project models that engine. It proves what each check accepts and
rejects.

| module | models |
|---|---|
| `PyValues` | Python values as viewunit sees them (`Value`), truthiness, `in`, `hasattr`, iteration, the string helpers |
| `Outcomes` | how a check ends: `Pass`, a failed assertion (`Fail`), or an exception (`Raise`) |
| `Matcher` | `_check_contains` / `_check_lists`, and a declarative reference (`Matches`, `Contains`) that they are proved against |
| `Vocabulary` | `EXPECT_LIST`, `EXPECT_DICT`, `_check_expect_names`, `_show` |
| `DottedPath` | `str.split('.')`, `_dot`, `_check_has` |
| `SearchList` | `_get_tmpl_data` / `_get_site_data` |
| `RequestGlobals` | `flask.g` for one request, `template_called`, `_get_tmpl_called` |
| `Config` | `viewunit/config.py`, as a class `Registry` with three `Option` slots |
| `Expectations` | the `**expects` keyword arguments |
| `RequestVars` | `_check_request_var_expects`, `_extract_path`, `_get_cookies` |
| `DbChecks` | `_check_db_expects`, `db_select` |
| `Flashes` | `_check_flashes_expects` |
| `Evaluator` | `_check_expects` |
| `Driver` | `run_view`, `set_session_user_id` |

Each check is a function returning an `Outcome`. Where the source loops
and updates variables, the loop is a method proved equal to that function:

- `Flatten`, the backward search-list merge;
- `CheckHas`, the `while` loop that pops parts;
- `BuildWhere` and `CheckRows`, the database loops;
- `CheckFlashes`, the nested loops over `has_match`;
- `GetCookies`.

`template_called` and the registry are classes whose methods update their
fields. Each verdict function has a reference predicate, and a lemma
proves the check passes exactly when the predicate holds:

- `CheckItemsSound` and the other `Matcher` soundness lemmas;
- `HasIffAllPresent`;
- `RequestVarsIff`;
- `DbVerdictIff`;
- `FlashesVerdictIff`;
- `EvaluateIff`.

Inputs that come from outside are parameters:

- the request itself (`serve` in `Driver.RunView`), which returns the headers, session, request globals and flashes;
- `re.search`;
- werkzeug's `parse_cookie`;
- the path/query/fragment part of `urlsplit`/`urlunsplit`;
- the registered hooks.

### Behaviour as written

The model follows the code. Where the code's behaviour is surprising, a
lemma states it:

- The first failed assertion ends the whole `run_view`, since nose
  assertions raise. Checks of later categories do not run. `Outcome.Then`
  models this, and `Evaluate` chains the categories in source order.
- `expect_redir=""` fails when there is no `Location` header. `_extract_path(None)`
  is `None`, and `None != ""`. An empty `Location` header passes
  (`RedirAbsentIsNotEmpty`).
- `_get_cookies` returns inside its loop. Only the first `Set-Cookie`
  header is parsed, and without one the result is `None`. Every
  `expect_cookie_data` key then fails as a missing attribute rather than
  a missing key (`CookiesWithoutHeader`, `LaterCookieHeadersIgnored`).
  Merging all `Set-Cookie` headers is perhaps what was meant, but this is
  not modelled.
- `_check_has` pushes each part it finds onto the front of
  `found_parts`. It stops at the first segment that resolves to None, and
  the prefix it reports is reversed: `b.a` for `a.b.c`
  (`MissingAtFirstNone`, `ReversedPrefix`).
- `expect_flashes_lacks` never fails, because `has_match` is only ever
  set to `False` (`FlashesLacksNeverFails`).
- `expect_flashes_has` fails when nothing was flashed, even when its list
  of pairs is empty (`FlashesHasIff`).
- `expect_perms_has` and `expect_perms_lacks` pass the vocabulary check
  but are never evaluated (`PermsNeverChecked`).
- A falsy `expect_tmpl` (None, "") is not checked at all (`TmplIff`).

## Model

Three methods replay scenarios as sequences of calls with asserts:
`Config.AppHookScenario` (the app slot cleared, set and cleared again, as in
`test_app_hook`, tests/test_hooks.py:13-23), `Driver.SessionHookScenario`
(a user id refused without a session-user setter and accepted once one is
registered, as in `test_session_hook`, tests/test_hooks.py:25-38) and
`Driver.BadKeyScenario` (a misspelt keyword refused before the app is looked
up, viewunit/viewunit.py:592-602). They carry no contract of their own and
so have no row below.

| member | source | states |
|---|---|---|
| `Outcomes.Outcome.Then` | viewunit/viewunit.py:192-195 | a sequence of checks passes iff both parts pass; a first part that fails or raises is the result and the second is not consulted; after a pass the second part is the result |
| `Matcher.Resolve` | viewunit/viewunit.py:414-423 | an attribute wins over membership and is called when callable; a key missing from a container fails as missing key; a value with neither attribute nor `__contains__` fails as missing attr/method; a key present in a mapping resolves to its item; a key found in a list or string raises TypeError |
| `Matcher.ResolveIgnoresWhere` | viewunit/viewunit.py:414-423 | the label used in messages does not affect which value a key resolves to |
| `Matcher.CheckContainsSound` | viewunit/viewunit.py:409-435 | `_check_contains` passes iff the key resolves and the expected value matches the resolved one |
| `Matcher.CheckValueSound` | viewunit/viewunit.py:425-435 | an expected list must match pointwise, an expected dict must be contained, anything else must be equal |
| `Matcher.CheckItemsSound` | viewunit/viewunit.py:429-431 | checking every item of an expected dict passes iff each of its keys is contained |
| `Matcher.CheckLists` | viewunit/viewunit.py:441-446 | differing lengths always fail with the length-mismatch failure; a pass implies equal lengths |
| `Matcher.CheckListsSound` | viewunit/viewunit.py:437-457 | `_check_lists` passes iff the lengths agree and every expected element matches its counterpart in order |
| `Matcher.CheckPairsSound` | viewunit/viewunit.py:447-457 | the `zip` loop passes iff every pair matches |
| `Matcher.CheckElementSound` | viewunit/viewunit.py:448-457 | a nested list recurses into list matching, a dict is a subset check, a scalar needs equality |
| `Matcher.ExtraKeysNeverFail` | viewunit/viewunit.py:429-431 | a pass depends only on what the actual dict stores under the expected keys: any other dict that stores the same there passes too, whatever else it holds and in whatever order |
| `Matcher.ExtraKeysBefore` | viewunit/viewunit.py:429-431 | `{a: 1}` is contained in `{b: 2, a: 1}`, an unexpected key stored first |
| `Matcher.MatchesSelf` | viewunit/viewunit.py:424-457 | a value built from None, ints, strings, lists and dicts with unique keys matches itself |
| `Matcher.EqualListsPass` | viewunit/viewunit.py:437-457 | an expected list passes `_check_lists` against an equal list of the same length |
| `Matcher.ContainmentNotSymmetric` | viewunit/viewunit.py:409-435 | `{a: 1}` is contained in `{a: 1, b: 2}`; the converse fails with a missing key `b` |
| `Vocabulary.CheckExpectNamesIff` | viewunit/viewunit.py:592-602 | passes iff every keyword is `"expect_" + e` for a word `e` of the list; otherwise the first bad keyword raises, non-prefixed and unknown prefixed keywords raising different exceptions |
| `Vocabulary.NonPrefixedNotExpect` | viewunit/viewunit.py:598-599 | a keyword without the `expect_` prefix is never in the vocabulary |
| `Vocabulary.ExpectDictMembers` | viewunit/viewunit.py:589 | membership in `EXPECT_DICT` is exactly being `"expect_" + e` for a listed `e` |
| `Vocabulary.NameErrorsDiffer` | viewunit/viewunit.py:597-602 | `user` raises the non-expect error, `expect_bogus` the unknown-expect error |
| `Vocabulary.ShowPrefixed` | viewunit/viewunit.py:617-627 | `_show("expect_" + e)` is `e` without its `_has`/`_lacks` suffix (for `e` other than the bare words `has` and `lacks`) |
| `Vocabulary.ShowVocabulary` | viewunit/viewunit.py:564-588 | for every listed word, the short name is the word without its category suffix |
| `DottedPath.Split` | viewunit/viewunit.py:315 | `split('.')` yields at least one part, no part holds a dot, and joining the parts with dots gives the key back |
| `DottedPath.SplitJoin` | viewunit/viewunit.py:315 | splitting a dot-join of dot-free parts gives the parts back |
| `DottedPath.Dot` | viewunit/viewunit.py:534-545 | an attribute is returned uncalled; else a mapping's item, with a missing key giving None; anything else raises |
| `DottedPath.CheckHas` | viewunit/viewunit.py:307-325 | the `while` loop ends exactly as the walk over the split key does: pass, the missing-path failure with the reversed prefix found, or an exception |
| `DottedPath.HasIffAllPresent` | viewunit/viewunit.py:307-325 | `_check_has` passes iff every prefix of the dotted key resolves to a value other than None |
| `DottedPath.ReversedIndex` | viewunit/viewunit.py:316-325 | element `j` of the reversed list is element `n-1-j` of the original, as pushing each found part onto the front of `found_parts` builds it |
| `DottedPath.MissingAtFirstNone` | viewunit/viewunit.py:315-325 | the walk stops as missing at part `i` iff every shorter prefix resolves to a value other than None and the prefix through part `i` is None; the failure then reports the parts before `i` back to front |
| `DottedPath.StoredNoneIsMissing` | viewunit/viewunit.py:321-324 | a key stored with value None counts as missing, reported with an empty prefix |
| `DottedPath.ReversedPrefix` | viewunit/viewunit.py:325 | with `a` and `b` present and `c` missing, the reported prefix for `a.b.c` is `b.a` |
| `SearchList.Assign` | viewunit/viewunit.py:499 | assigning a key makes lookup of that key yield the new value and leaves every other key's lookup unchanged |
| `SearchList.UpdateFind` | viewunit/viewunit.py:499 | after `result.update(d)` a key resolves to `d`'s value if `d` has it, else to its old value |
| `SearchList.UpdateHasKey` | viewunit/viewunit.py:691 | after an update a key is present iff it was present before or the update has it |
| `SearchList.Flattened` | viewunit/viewunit.py:474-501 | every successful flattening is a mapping |
| `SearchList.Flatten` | viewunit/viewunit.py:494-501 | the backward merging loop returns exactly the flattening: a merge in which earlier mappings override later ones |
| `SearchList.MergeResolves` | viewunit/viewunit.py:496-499 | the merged dict resolves each key as the search list does, from its first mapping that has the key |
| `SearchList.FlattenKeys` | viewunit/viewunit.py:474-501 | for every well-formed search list, the empty one included, the flattened data's keys are the union of the search list's keys |
| `SearchList.FlattenPrecedence` | viewunit/viewunit.py:477-479 | each key takes its value from the lowest-index mapping that contains it |
| `SearchList.FlattenedPassThrough` | viewunit/viewunit.py:481-489 | a truthy mapping is returned unchanged; a falsy or missing value gives `{}` |
| `SearchList.SpecificWins` | viewunit/viewunit.py:496-499 | `[{x: 1}, {x: 2, y: 3}]` flattens to `x = 1`, `y = 3` |
| `RequestGlobals.Recorded` | viewunit/viewunit.py:555-562 | the first call sets the recorded-name attribute (even to None, so it still blocks later calls) and the data; once a template is recorded the globals stay as they are; site data is never touched |
| `RequestGlobals.FirstTemplateWins` | viewunit/viewunit.py:559-562 | after two calls the recorded name and data are those of the first |
| `RequestGlobals.RequestScope.TemplateCalled` | viewunit/viewunit.py:555-562 | writes name and data only when no template attribute is set yet, otherwise changes nothing |
| `Config.Registry.constructor` | viewunit/config.py:51-53 | all three slots start as None, and every getter then fails |
| `Config.Registry.GetApp` | viewunit/config.py:56-62 | succeeds iff the slot is set, yielding its content; otherwise fails the app assertion |
| `Config.Registry.GetSessionUserSetter` | viewunit/config.py:65-72 | succeeds iff the slot is set, yielding its content; otherwise fails the setter assertion |
| `Config.Registry.GetDbSelectHook` | viewunit/config.py:75-81 | succeeds iff the slot is set, yielding its content; otherwise fails the select-hook assertion |
| `Config.Registry.SetApp` | viewunit/config.py:15-20 | overwrites only the app slot, None included; the getter then returns the new app or fails again |
| `Config.Registry.SetSessionUserSetter` | viewunit/config.py:23-34 | overwrites only the setter slot; the getter then returns the new setter or fails |
| `Config.Registry.SetDbSelectHook` | viewunit/config.py:37-48 | overwrites only the select-hook slot; the getter then returns the new hook or fails |
| `RequestVars.ExtractPath` | viewunit/viewunit.py:605-614 | None and "" come back unchanged; any other URL is reduced to its path part |
| `RequestVars.RedirAbsentIsNotEmpty` | viewunit/viewunit.py:265-273 | without a `Location` header `expect_redir=""` fails against None; an empty `Location` satisfies it |
| `RequestVars.TmplIff` | viewunit/viewunit.py:251-263 | `expect_tmpl` passes iff it is falsy or equals the recorded template; a truthy name with no template recorded fails as not called |
| `RequestVars.GetCookies` | viewunit/viewunit.py:684-693 | the loop returns the cookies of the first `Set-Cookie` header, or None when there is none |
| `RequestVars.CookiesWithoutHeader` | viewunit/viewunit.py:689-693 | without a `Set-Cookie` header the cookies are None, and every cookie key fails as a missing attr/method |
| `RequestVars.LaterCookieHeadersIgnored` | viewunit/viewunit.py:689-693 | a cookie the first `Set-Cookie` header does not set is missing, whatever later headers set |
| `RequestVars.ContainsTablesIff` | viewunit/viewunit.py:276-287 | the contains tables pass iff every key of every given dict is contained in its actual value |
| `RequestVars.HasKeysIff` | viewunit/viewunit.py:292-295 | a has list passes iff every dotted key is fully present |
| `RequestVars.HasTablesIff` | viewunit/viewunit.py:289-295 | the has tables pass iff every listed key is fully present in its actual value |
| `RequestVars.LacksKeysIff` | viewunit/viewunit.py:300-305 | a lacks list passes iff the actual value supports `in` and holds none of the keys |
| `RequestVars.LacksTablesIff` | viewunit/viewunit.py:297-305 | the lacks tables pass iff every listed key is absent from its actual value |
| `RequestVars.RequestVarsIff` | viewunit/viewunit.py:246-305 | the request-variable checks pass iff the template and redirect expectations hold, the template and site data flatten, and every contains, has and lacks entry holds |
| `DbChecks.BuildWhere` | viewunit/viewunit.py:345-352 | the loop yields one clause per column, `is null` for None and a placeholder otherwise, and exactly the non-None values in order |
| `DbChecks.Clauses` | viewunit/viewunit.py:345-351 | one clause per column, in iteration order: `is null` for a None value, a `= %s` placeholder otherwise |
| `DbChecks.Params` | viewunit/viewunit.py:346-352 | the bound values are never None, are at most as many as the columns, and include every value that is not None |
| `DbChecks.PlaceholdersMatchParams` | viewunit/viewunit.py:347-352 | the number of bound values equals the number of clauses ending in `= %s` |
| `DbChecks.NullColumnBindsNothing` | viewunit/viewunit.py:348-352 | a None column gives an `is null` clause and binds no value |
| `DbChecks.CheckRows` | viewunit/viewunit.py:344-359 | the loop over `(table, dct)` pairs ends as the row verdict: the hook is required for each pair, and the first pair with the wrong row count fails |
| `DbChecks.CheckDb` | viewunit/viewunit.py:339-378 | the database checks end as the verdict: has pairs first, then lacks pairs |
| `DbChecks.RowsIff` | viewunit/viewunit.py:357-378 | the pairs pass iff a hook is set (when any pair is listed) and each query returns rows exactly when rows are wanted |
| `DbChecks.DbIff` | viewunit/viewunit.py:339-378 | `expect_db_has` passes iff every query returns at least one row; `expect_db_lacks` iff every query returns none |
| `DbChecks.DbHasNeedsHook` | viewunit/viewunit.py:460-465 | without a select hook a non-empty `expect_db_has` raises the getter's assertion |
| `DbChecks.AnyRowSatisfiesHas` | tests/test_hooks.py:49-55 | with a hook that returns a row for every query, `expect_db_has` passes |
| `DbChecks.DbVerdictIff` | viewunit/viewunit.py:339-378 | the database checks pass iff both expectations hold |
| `Flashes.CheckFlashes` | viewunit/viewunit.py:380-407 | the nested loops end as the flash verdict, including the lacks loop that never fails |
| `Flashes.FirstUnmatchedIff` | viewunit/viewunit.py:392-398 | the has loop passes iff every expected pair is matched by a flash with the same category and a matching message |
| `Flashes.FlashesHasIff` | viewunit/viewunit.py:387-398 | `expect_flashes_has` passes iff something was flashed and every pair is matched; with no flashes it fails with the no-flashes failure |
| `Flashes.FlashesLacksNeverFails` | viewunit/viewunit.py:400-407 | `expect_flashes_lacks` never changes the outcome, even when a flash matches |
| `Flashes.FlashesVerdictIff` | viewunit/viewunit.py:380-407 | the flash checks pass iff the has pairs are all matched (with something flashed) and the lacks payload is well shaped or nothing was flashed |
| `Evaluator.CheckExpects` | viewunit/viewunit.py:186-198 | runs the request-variable, database and flash checks in order and ends as the evaluation does |
| `Evaluator.EvaluateIff` | viewunit/viewunit.py:186-198 | the evaluation passes iff every request-variable, database and flash expectation given holds |
| `Evaluator.PermsNeverChecked` | viewunit/viewunit.py:572-573 | adding `expect_perms_has` or `expect_perms_lacks` never changes the evaluation |
| `Driver.SessionWithUser` | viewunit/viewunit.py:696-708 | no user id leaves the session as it is without consulting the registry; a user id needs a registered setter, and the session becomes what the setter makes of it |
| `Driver.RunView` | viewunit/viewunit.py:106-137 | a bad keyword fails before anything else and no request is made; a request is made iff the keywords are valid, an app is set and the session can be prepared; then a template-data error raises, and otherwise the run passes iff every expectation holds |

## Left out

- The request itself (test client, session transaction, `client.open` with path, method and data, `_request_ctx_stack.pop()`) is the parameter `serve` of `Driver.RunView`; the Flask internals it stands for are outside viewunit.
- `Evaluator.CheckExpects`: does not run `_check_form_errors`, `_check_json`, `_check_response_expects` or `_check_well_formed`, because they depend on WTForms-like objects, `json.loads`, arbitrary user callables and html5lib; the model's evaluation can pass where one of those would fail.
- `Driver.RunView`: inherits the four checks left out of `Evaluator.CheckExpects`, so a run the model accepts may still fail there.
- `start_full`, `end_full`, `dbSetUp`, `dbTearDown`, `setUp`, `tearDown`, `on_teardown`, `test_request_context` and `test_client` are unittest/nose lifecycle glue that mutates Flask app configuration.
- `re.search`, werkzeug's `parse_cookie` and `urlsplit`/`urlunsplit` are foreign libraries and are parameters; only `_extract_path`'s falsy pass-through is modelled exactly.
- The parameters standing for foreign code never raise: `search` (`re.search`), `parseCookie`, `urlPath` (`urlsplit`), the session-user setter, the select hook and `serve` are total functions. The model therefore drops the exceptions they can raise: `re.error` for an invalid pattern at viewunit/viewunit.py:395 and 404, `ValueError` from `urlsplit` at line 613, and any exception a registered hook or the view raises. In particular, `Flashes.FlashesLacksNeverFails` holds only under this assumption: with an invalid `expect_flashes_lacks` pattern whose category matches a flash, the source raises at line 404.
- Failure message text and `pprint` formatting are left out; each `Failure` constructor carries the values its message names.
- Attributes of built-in types are not modelled: `hasattr` is true only for `Object` values, so a dict key such as `items` resolves as an item, where Python would find the dict method first.
- Response headers are matched case-sensitively and only as a name/value list; werkzeug's `Headers` is case-insensitive and also has methods that `hasattr` would find.
- Tuples and other sequences that are not lists have no encoding of their own: a tuple is written as a `List`. The source compares an expected tuple by `eq_`, because `isinstance(val, types.ListType)` is false (viewunit/viewunit.py:425, 448), but iterates an actual tuple with `len` and `zip` (lines 441, 447). The model therefore list-matches an expected tuple: `({'a': 1},)` passes against `({'a': 1, 'b': 2},)` and `(1, 2)` passes against `[1, 2]`, where Python fails both.
- Python's cross-type equalities (`1 == 1.0`, `1 == True`) are not modelled; values are equal only when structurally equal.
- A search-list element that is not a mapping raises TypeError in the model. Python's `dict.update` accepts any object with a `keys` method as a mapping, and otherwise an iterable of pairs.
- The stored template data counts as a single mapping when calling its `get` succeeds (viewunit/viewunit.py:486-489); the model takes that to be exactly the `Dict` values and the `Object` values marked as mappings.
- An expectation payload of the wrong shape raises `BadArgument` in the model; Python's behaviour there depends on how the payload happens to iterate.
- Rows returned by the select hook are a list whose length is all that is used; their contents are not modelled.
- Driver.RunView starts the test session empty, since the test client starts without a session cookie.
