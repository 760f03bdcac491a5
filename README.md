# CALC data capture: a verified Dafny model

This project models the core of CALC, a contract-pricing application. In it, staff upload
price lists, a Region 10 bulk-upload wizard stores spreadsheets and queues load jobs, and
approved contracts become searchable. The model covers these parts of the system:

- **Decorators**: the view decorators of the data-capture views. These are the cancel
  handler and two access checks.
- **UploadWidgets**: the `upload-input` and `upload-widget` browser components. This
  covers accept-list validation, the `upgradedValue` setter and the drag highlight.
- **AjaxForms**: the `ajax-form` component. It assembles a FormData, submits it, and
  dispatches on the JSON answer.
- **Forms**: Step1Form's clean-up, and Step3Form's business-size choice.
- **BulkUpload**: the three Region 10 bulk-upload views. They are modelled as pure
  transitions over a session, a record store and a job queue. A class runs them in place.
- **ContractSearch**: the contract helpers pinned down by the contract tests. These are
  the tsquery compiler, the code tables, the rate normaliser and the order-preserving
  multi-phrase search.
- **PriceListAdmin**: the `approve` and `unapprove` admin actions.
- **SettingsUtils**: the settings helpers. These are the IP whitelist, the user-provided
  service and redis loaders, and the is-running-tests rule.

Two helper modules support the rest. `Wrappers` holds Option and Result. `Text` holds the
string helpers: split, join, trim, ASCII lower-case and decimal rendering.

For `contracts/models.py`, `data_capture/admin.py` and `hourglass/settings_utils.py`, only
the tests are part of this model. Each of these is modelled by the smallest rule that agrees
with every assertion of its tests, and the asserted examples are proved as lemmas.

## Model

| member | source | states |
|---|---|---|
| Decorators.CancelledSession | data_capture/decorators.py:28-35 | a key survives exactly when it does not start with the prefix, with its value unchanged; an empty prefix deletes nothing |
| Decorators.CancelIdempotent | data_capture/decorators.py:28-35 | cancelling an already cancelled session changes nothing more |
| Decorators.HandleCancel | data_capture/decorators.py:27-47 | on a POST with `cancel`, the session loses its prefixed keys (the loop runs over a snapshot of the keys) and the answer is an ajax redirect or a plain redirect to the given name; any other request passes through with the session unchanged |
| Decorators.UserPassesTest | data_capture/decorators.py:86-90 | a test returning True admits, False sends to login, and PermissionDenied forbids, each exactly |
| Decorators.StaffLoginRequired | data_capture/decorators.py:71-84 | admits exactly authenticated staff, sends exactly anonymous users to login, and forbids exactly authenticated non-staff |
| Decorators.RolePermissionsRequired | data_capture/decorators.py:110-120 | admits exactly the users, even anonymous ones, holding every permission of the role; otherwise it forbids an authenticated user and sends an anonymous one to login |
| Decorators.MorePermissionsKeepAccess | data_capture/decorators.py:112-113 | adding permissions to an admitted user keeps them admitted |
| UploadWidgets.LastOccurrenceUpTo | frontend/source/js/data-capture/upload.js:96-97 | the backward search finds the largest occurrence at or before the start index, or -1 when there is none |
| UploadWidgets.LastIndexOfFromEndIsContains | frontend/source/js/data-capture/upload.js:96-97 | the filename test of isFileValid holds exactly when the entry occurs anywhere in the name |
| UploadWidgets.AnyEntryAccepts | frontend/source/js/data-capture/upload.js:95-101 | the loop with its early return is true exactly when some entry accepts |
| UploadWidgets.IsFileValidMeaning | frontend/source/js/data-capture/upload.js:86-102 | isFileValid accepts exactly when accept is missing or empty, or some trimmed, lower-cased entry equals the lower-cased type or occurs in the lower-cased name |
| UploadWidgets.TrailingCommaAcceptsEverything | frontend/source/js/data-capture/upload.js:94-97 | an accept list ending with a comma accepts every file |
| UploadWidgets.SingleEntryList | frontend/source/js/data-capture/upload.js:94 | an attribute without commas, spaces or capitals is the one-entry list of itself |
| UploadWidgets.InnerExtensionAccepted | frontend/source/js/data-capture/upload.js:96-97 | with accept ".csv", the check as written accepts "report.csv.exe" of another type |
| UploadWidgets.InnerExtensionRejectedAsIntended | frontend/source/js/data-capture/upload.js:96-97 | the intended check rejects that file |
| UploadWidgets.IntendedAcceptsLess | frontend/source/js/data-capture/upload.js:96-97 | everything the intended check accepts, the check as written accepts too |
| UploadWidgets.IntendedSingleEntry | frontend/source/js/data-capture/upload.js:92-101 | with one entry, the intended check accepts exactly the files of that type and the files whose name ends with it |
| UploadWidgets.UploadInput.constructor | frontend/source/js/data-capture/upload.js:23-26 | a new input is not upgraded and has no upgraded value |
| UploadWidgets.UploadInput.Upgrade | frontend/source/js/data-capture/upload.js:39-57 | sets isUpgraded and drops `required`; a required input gets "Please choose a file." when setCustomValidity exists; nothing else changes |
| UploadWidgets.UploadInput.Store | frontend/source/js/data-capture/upload.js:74-83 | the file becomes the upgraded value, the native value and (when setCustomValidity exists) the validity message are cleared, and `changefile` is logged with the file |
| UploadWidgets.UploadInput.SetUpgradedValue | frontend/source/js/data-capture/upload.js:64-84 | no file changes nothing; a file that isFileValid as written rejects only logs `invalidfile`; a file it accepts (so also "report.csv.exe" under accept ".csv") is stored, clears the native value and the validity message, and logs `changefile` with the file |
| UploadWidgets.UploadInput.SetUpgradedValueIntended | frontend/source/js/data-capture/upload.js:64-84 | the same setter with the corrected check: only a file whose type equals an entry or whose name ends with one is stored |
| UploadWidgets.UploadInput.Change | frontend/source/js/data-capture/upload.js:41-43 | once upgraded, a change hands files[0] to the setter as written, so the file is stored (native value and validity message cleared, `changefile` logged) exactly when isFileValid accepts it, and otherwise value, native value and validity message stay; before that, nothing happens; the input stays upgraded and its `required` flag is unchanged |
| UploadWidgets.EntersHighlight | frontend/source/js/data-capture/upload.js:214-219 | n dragenter events raise the counter by n and highlight |
| UploadWidgets.LeavesKeepHighlight | frontend/source/js/data-capture/upload.js:220-225 | fewer dragleave events than the count keep the highlight |
| UploadWidgets.BalancedDrag | frontend/source/js/data-capture/upload.js:214-225 | from rest, n enters then m <= n leaves stay highlighted while m < n and come back to rest when m = n |
| UploadWidgets.HighlightAfterDropAndLeave | frontend/source/js/data-capture/upload.js:214-232 | because drop keeps the counter, enter, drop, enter, leave ends highlighted with count 1 |
| UploadWidgets.UploadWidget.Attach | frontend/source/js/data-capture/upload.js:155-205 | degrades exactly when the input has a form that is not an ajax form, when the browser lacks support, or when forced (`hasForm && !formIsAjax`, so an input without a form does not degrade); only a widget that is not degraded listens and upgrades its input |
| UploadWidgets.UploadWidget.OnDragEnter | frontend/source/js/data-capture/upload.js:214-219 | when listening, one dragenter step; otherwise nothing |
| UploadWidgets.UploadWidget.OnDragLeave | frontend/source/js/data-capture/upload.js:220-225 | when listening, one dragleave step; otherwise nothing |
| UploadWidgets.UploadWidget.OnDrop | frontend/source/js/data-capture/upload.js:227-232 | when listening, removes the highlight, keeps the counter and hands files[0] to the input's setter, which stores it exactly when isFileValid as written accepts it, clearing the native value and the validity message; otherwise the input's value, native value and validity message stay; the input's upgraded and `required` flags never change |
| AjaxForms.Contribution | frontend/source/js/data-capture/ajaxform.js:71-82 | an element fails exactly when it is a non-upgraded radio or `checked`, with "unsupported input type: " and its type; an upgraded element gives its upgraded value; a file input gives one entry per file; any other element gives the one entry of its name and value |
| AjaxForms.PopulateAppend | frontend/source/js/data-capture/ajaxform.js:68-83 | processing a + b processes a and, unless a raised, then b |
| AjaxForms.PopulateErrorIsFirstUnsupported | frontend/source/js/data-capture/ajaxform.js:68-75 | populateFormData raises exactly when some element is unsupported, with the message of the first one |
| AjaxForms.OneEntryPerElement | frontend/source/js/data-capture/ajaxform.js:68-83 | without file inputs or unsupported elements, element i gives entry i with its name and value |
| AjaxForms.AppendFiles | frontend/source/js/data-capture/ajaxform.js:77-79 | appends one entry per file, in order |
| AjaxForms.PopulateFormData | frontend/source/js/data-capture/ajaxform.js:64-86 | the FormData gains exactly the entries of the elements before the first unsupported one, and the error is that element's |
| AjaxForms.React | frontend/source/js/data-capture/ajaxform.js:115-129 | form_html wins over redirect_url; with neither, or when the request fails, the answer is the error alert |
| AjaxForms.AjaxForm.Attach | frontend/source/js/data-capture/ajaxform.js:55-62 | degrades exactly when FormData is missing or degradation is forced; only a form that is not degraded listens |
| AjaxForms.AjaxForm.Submit | frontend/source/js/data-capture/ajaxform.js:99-130 | without the handler the browser submits; an unsupported element raises before any request; otherwise one request with the populated entries is sent, and then the form is replaced, redirected, or alerts MISC_ERROR and clears `submit-in-progress` |
| Forms.UploadOf | data_capture/forms.py:15-19 | a schedule and a file are found exactly when both are present and truthy |
| Forms.Step1Clean | data_capture/forms.py:14-30 | without both fields the data comes back as it was; otherwise empty gleaned data is the ValidationError and other data is added under `gleaned_data`, every other key unchanged |
| Forms.Step1Form.Clean | data_capture/forms.py:14-30 | clean agrees with Step1Clean, changes cleaned_data only on success, and calls the loader exactly when both fields are present |
| Forms.CleanIsSmallBusiness | data_capture/forms.py:34-42 | a choice is accepted exactly when it is True or False, given back unchanged; the unset choice is "This field is required." |
| BulkUpload.Lookup | data_capture/views/bulk_upload.py:71-72 | a pk names a source exactly when it is an integer from 1 to the number of sources |
| BulkUpload.NewSource | data_capture/views/bulk_upload.py:28-34 | the new source is Region 10, not yet loaded, and holds the file's content, its type and the submitter |
| BulkUpload.Step1 | data_capture/views/bulk_upload.py:14-54 | a denied user gets the decorator's login redirect or 403; an admitted GET renders the empty step-1 form; a method other than GET or POST answers 405; only an admitted, valid POST stores one new source, remembers its pk in the session and redirects to step 2; every other request changes nothing; an invalid POST re-renders with the form error |
| BulkUpload.Step2 | data_capture/views/bulk_upload.py:57-91 | a denied user gets the decorator's login redirect or 403 and nothing changes; cancel purges the prefixed keys; a method other than GET or POST answers 405 and changes nothing; a job is queued exactly on an admitted POST with the id in the session, which then queues that id, forgets it and redirects to step 3; an admitted GET with the id changes nothing and renders step 2 exactly when the id names a stored source, else raises DoesNotExist; without the id it redirects to step 1 and changes nothing |
| BulkUpload.Step3 | data_capture/views/bulk_upload.py:94-101 | the success page exactly for admitted users, the decorator's login redirect or 403 for the others; the state is unchanged |
| BulkUpload.Step1KeepsValid | data_capture/views/bulk_upload.py:25-41 | step 1 keeps the wizard invariant (the session's id names a stored source with no job; jobs name sources, none twice) |
| BulkUpload.Step2KeepsValid | data_capture/views/bulk_upload.py:57-91 | step 2 keeps the wizard invariant |
| BulkUpload.NoDuplicateJob | data_capture/views/bulk_upload.py:65-91 | after a step-2 POST has queued its job, any further step-2 request queues nothing |
| BulkUpload.RunKeepsValid | data_capture/views/bulk_upload.py:14-101 | every sequence of requests to the three views keeps the invariant |
| BulkUpload.Wizard.RegionTenStep1 | data_capture/views/bulk_upload.py:14-54 | the view over the live session and store answers and changes state as Step1 says |
| BulkUpload.Wizard.RegionTenStep2 | data_capture/views/bulk_upload.py:57-91 | the view, with handle_cancel run on the live session, answers and changes state as Step2 says |
| BulkUpload.Wizard.RegionTenStep3 | data_capture/views/bulk_upload.py:94-101 | answers as Step3 says and changes nothing |
| ContractSearch.StripPunctuation | contracts/tests/test_contract.py:31-33 | only letters, digits and whitespace remain; a query of those is unchanged |
| ContractSearch.Words | contracts/tests/test_contract.py:29-30 | the words are non-empty and contain no whitespace |
| ContractSearch.Tokens | contracts/tests/test_contract.py:28-33 | every term is a non-empty run of letters and digits |
| ContractSearch.PrefixTerms | contracts/tests/test_contract.py:29-32 | term i becomes term i followed by ":*" |
| ContractSearch.WordsOfJoin | contracts/tests/test_contract.py:29-32 | splitting words joined by single spaces gives the words back |
| ContractSearch.TsqueryOfTerms | contracts/tests/test_contract.py:28-33 | alphanumeric terms joined by spaces compile to the terms in order, each with ":*", joined by " & " |
| ContractSearch.TermsOfSpacedWords | contracts/tests/test_contract.py:29-30 | any run of whitespace between two words separates them without making an empty term |
| ContractSearch.TermsWithoutDropped | contracts/tests/test_contract.py:31-32 | a punctuation character can be left out without changing the terms |
| ContractSearch.NoTermsGiveEmptyQuery | contracts/tests/test_contract.py:33 | a query without letters or digits compiles to "" |
| ContractSearch.EmptyQueryIffNoTerms | contracts/tests/test_contract.py:33 | the compiled query is empty exactly when there are no terms |
| ContractSearch.ExampleDoubleSpace | contracts/tests/test_contract.py:29-30 | "staff  consultant" compiles to "staff:* & consultant:*" |
| ContractSearch.ExamplePunctuation | contracts/tests/test_contract.py:31-32 | "senior typist (st)" compiles to "senior:* & typist:* & st:*" |
| ContractSearch.ExampleOnlyPunctuation | contracts/tests/test_contract.py:33 | "@$(#)%&**#" compiles to "" |
| ContractSearch.LabelOf | contracts/tests/test_contract.py:10-17 | a code has a caption exactly when the table lists it, and the pair is in the table |
| ContractSearch.CodeOf | contracts/tests/test_contract.py:19-22 | a caption has a code exactly when the table lists it, and the pair is in the table |
| ContractSearch.LookupsInverse | contracts/tests/test_contract.py:10-22 | in a table without repeated codes or captions, the code of a code's caption is that code |
| ContractSearch.BusinessSizeExamples | contracts/tests/test_contract.py:10-17 | "O" reads "other than small business" and "S" reads "small business" |
| ContractSearch.EducationCodeExamples | contracts/tests/test_contract.py:19-22 | "Bachelors" has code "BA" and "Nursing" has none |
| ContractSearch.StripCurrency | contracts/tests/test_contract.py:24-26 | no "$" or "," remains, and a rate without them is unchanged |
| ContractSearch.CurrencyDropped | contracts/tests/test_contract.py:24-26 | a "$" or "," can be left out before the clean-up |
| ContractSearch.DecimalOfParts | contracts/tests/test_contract.py:26 | a numeral with one point parses to its whole part plus its fraction scaled by the number of fraction digits |
| ContractSearch.NormalizeWholeRate | contracts/tests/test_contract.py:24-26 | the decimal rendering of a whole number normalizes back to that number |
| ContractSearch.WholeDigitsUnchanged | contracts/tests/test_contract.py:24-26 | a clean numeral passes the clean-up unchanged |
| ContractSearch.NormalizeRateExample | contracts/tests/test_contract.py:24-26 | "$1,000.00," normalizes to 1000.0 |
| ContractSearch.SelectMembers | contracts/tests/test_contract.py:60-90 | the selection holds exactly the contracts that satisfy the filter |
| ContractSearch.SelectKeepsOrder | contracts/tests/test_contract.py:80-90 | the selection keeps increasing ids increasing |
| ContractSearch.SelectAppend | contracts/tests/test_contract.py:80-90 | selecting from a concatenation selects from each part in turn |
| ContractSearch.Matches | contracts/tests/test_contract.py:60-90 | a category matches when some phrase has terms and every term matches it |
| ContractSearch.MultiPhraseSearch | contracts/tests/test_contract.py:60-90 | the result holds exactly the matching contracts, in id order |
| ContractSearch.NoPhrasesFindNothing | contracts/tests/test_contract.py:60-90 | no phrases find nothing |
| ContractSearch.SearchIsUnion | contracts/tests/test_contract.py:80-90 | searching for p + q finds exactly what p or q finds |
| ContractSearch.OneTermSearch | contracts/tests/test_contract.py:60-68 | a one-term phrase keeps exactly what its term matches |
| ContractSearch.TwoTermSearch | contracts/tests/test_contract.py:70-78 | a two-term phrase keeps exactly what both terms match |
| ContractSearch.TwoPhraseSearch | contracts/tests/test_contract.py:80-90 | two phrases keep exactly what either keeps |
| ContractSearch.SelectRuns | contracts/tests/test_contract.py:80-90 | rows kept before i and from j on, and dropped in between, select to the two kept runs |
| ContractSearch.SingleWordPhraseExample | contracts/tests/test_contract.py:60-68 | "interpretation" finds rows 1, 2, 6, 7 and 8, in order |
| ContractSearch.MultiWordPhraseExample | contracts/tests/test_contract.py:70-78 | "interpretation services" finds rows 6, 7 and 8, in order |
| ContractSearch.MultiplePhrasesExample | contracts/tests/test_contract.py:80-90 | "interpretation services" or "disposal" finds rows 5 to 8, in order |
| PriceListAdmin.SetAll | data_capture/tests/test_admin.py:138-139 | each selected list has the target state and every other list keeps its state |
| PriceListAdmin.Flipped | data_capture/tests/test_admin.py:107-155 | the flipped lists are exactly the selected lists not yet in the target state |
| PriceListAdmin.Notices | data_capture/tests/test_admin.py:136 | one email per flipped list, in order |
| PriceListAdmin.PriceListStore.SetApproval | data_capture/tests/test_admin.py:107-155 | the count is the number of flipped lists; the flags become SetAll; the emails gain one notice per flipped list; exactly one INFO message with the count is added |
| PriceListAdmin.PriceListStore.Approve | data_capture/tests/test_admin.py:107-115 | SetApproval with the approved state and the approval summary |
| PriceListAdmin.PriceListStore.Unapprove | data_capture/tests/test_admin.py:117-124 | SetApproval with the unapproved state and the unapproval summary |
| PriceListAdmin.NothingToFlip | data_capture/tests/test_admin.py:107-124 | lists already in the target state are not counted and get no email |
| PriceListAdmin.ActionIdempotent | data_capture/tests/test_admin.py:107-115 | running the same action again flips nothing and reports 0 |
| PriceListAdmin.FlippedDistinct | data_capture/tests/test_admin.py:111-115 | no list is counted twice |
| PriceListAdmin.ChangedAreFlipped | data_capture/tests/test_admin.py:130-155 | a list's flag changes exactly when it is among the flipped lists |
| PriceListAdmin.SummaryExamples | data_capture/tests/test_admin.py:111-151 | the "0 …" and "1 …" summaries of both actions, word for word |
| PriceListAdmin.ApproveOneExample | data_capture/tests/test_admin.py:126-139 | approving one unapproved list counts 1, approves it and sends one approval email |
| PriceListAdmin.UnapproveOneExample | data_capture/tests/test_admin.py:141-155 | unapproving one approved list counts 1, unapproves it and sends one email |
| PriceListAdmin.IgnoredExamples | data_capture/tests/test_admin.py:107-124 | an approved list is not approved again, and an unapproved one is not unapproved again |
| SettingsUtils.WhitelistedIps | hourglass/tests.py:184-193 | None exactly when WHITELISTED_IPS is unset; otherwise the comma-separated pieces, each trimmed, in order |
| SettingsUtils.WhitelistRoundTrip | hourglass/tests.py:188-193 | entries without commas or whitespace joined by "," come back as they were |
| SettingsUtils.SplitJoin | hourglass/tests.py:188-193 | splitting comma-free pieces joined by "," gives the pieces back |
| SettingsUtils.WhitelistOfThree | hourglass/tests.py:188-193 | three comma-free pieces come back trimmed, in order |
| SettingsUtils.WhitelistExample | hourglass/tests.py:188-193 | "1.2.3.4,1.2.3.8, 1.2.3.16" gives the three addresses |
| SettingsUtils.BindingsOf | hourglass/tests.py:100-103 | without VCAP_SERVICES there are no bindings |
| SettingsUtils.CupsKeys | hourglass/tests.py:105-141 | the loaded environment has exactly the old keys and the credential keys of bindings with that name |
| SettingsUtils.CupsKeepsOthers | hourglass/tests.py:105-122 | a variable no matching binding names keeps its value |
| SettingsUtils.CupsLastWins | hourglass/tests.py:124-141 | a credential takes the value of the last matching binding that has it |
| SettingsUtils.CupsIgnoresOtherNames | hourglass/tests.py:105-122 | bindings with other names change nothing |
| SettingsUtils.RedisUrl | hourglass/tests.py:164-179 | a URL exists exactly when password, hostname and port are all present, and it starts with "redis://:", the password and "@" |
| SettingsUtils.RedisOnlySetsUrl | hourglass/tests.py:164-179 | the redis loader changes REDIS_URL and nothing else |
| SettingsUtils.RedisUrlFromBinding | hourglass/tests.py:164-179 | a REDIS_URL the loader set is the URL of some matching binding |
| SettingsUtils.RedisIgnoresOtherNames | hourglass/tests.py:150-162 | bindings with other names change nothing and raise nothing |
| SettingsUtils.RaisedStops | hourglass/tests.py:164-179 | once a KeyError is raised, later bindings change nothing |
| SettingsUtils.Environment.LoadCups | hourglass/tests.py:100-141 | the environment in place becomes CupsOverlay of the bindings under "user-provided" |
| SettingsUtils.Environment.LoadRedisUrl | hourglass/tests.py:145-179 | the environment in place, and whether a KeyError was raised, are RedisOverlay of the bindings under "redis28-swarm" |
| SettingsUtils.LoadersNoopWithoutVcap | hourglass/tests.py:100-103 | without VCAP_SERVICES both loaders leave the environment as it was |
| SettingsUtils.CupsExamples | hourglass/tests.py:105-122 | "NOT-boop-env" credentials are not loaded for "boop-env" |
| SettingsUtils.CupsCredentialsExample | hourglass/tests.py:124-141 | "boop-env" credentials give boop = jones |
| SettingsUtils.RedisUrlExample | hourglass/tests.py:164-179 | the example credentials give "redis://:the_password@the_host:1234" |
| SettingsUtils.RedisLoadedExample | hourglass/tests.py:164-179 | loading the example binding sets that REDIS_URL and raises nothing |
| SettingsUtils.IsRunningTestsExamples | hourglass/tests.py:241-251 | false for ["gunicorn"] and ["manage.py", "runserver"]; true for ["manage.py", "test"] and ["/usr/local/bin/py.test"] |

## Left out

- Django machinery is reduced to outcomes: `user_passes_test`, the 403 page for
  PermissionDenied, `redirect` and `render`, the ORM, the messages framework and the
  decorators' wrapping. Templates and rendered context are not modelled.
- Region10BulkUploadForm is not part of this model. Its validity is the `upload`
  parameter of BulkUpload.Step1.
- Region10SpreadsheetConverter metadata, the background load job and email sending are out
  of scope. A job is the id it is queued with. A step-2 GET does only the lookup.
- `add_generic_form_error` is out of scope. The model keeps only the fact that the
  re-rendered step-1 form carries an error.
- `smart_load_from_upload` and `is_empty` are out of scope. They are parameters of
  Forms.Step1Clean.
- Step3Form's other model fields are left out. Only the business-size choice is modelled.
- Browser and DOM details are left out:
  - jQuery and the markup of `setCurrentFilename` and `showInvalidFileMessage`;
  - `registerElement`, the `type` and `multiple` checks of attachedCallback, and feature
    detection (a parameter);
  - the `uploadinputready` retry, the ajax transport (a parameter), and `fadeIn`.
- Dispatched events and delegate calls are logs:
  - UploadInput.events;
  - AjaxForm.requests, alerts and redirects.
- Unicode is not modelled. Lower-casing, trimming and the letter/digit test are ASCII-only.
  Trimming removes the ASCII whitespace that str.strip() and trim() share, so the
  separators U+001C to U+001F, which str.strip() also removes, stay in a Python-side trim.
- Query matching is left out. Postgres English stemming decides whether a term matches a
  category, so the match is a parameter (Matcher), and the search examples assume the
  stemmer's verdicts on the eight stored categories. The raw-SQL test
  (contracts/tests/test_contract.py:92-107) depends on the engine alone.
- Floating point is not modelled. `normalize_rate` parses to an exact real. Only unsigned
  decimal numerals (digits with at most one point) parse; every other input is None.
- ContractSearch.ParseDecimal: Python's float() also accepts a leading sign ("-5"),
  surrounding whitespace (" 12 "), exponents ("1e3"), "inf" and "nan"; the model gives None
  for all of these, so it does not capture what normalize_rate returns for them.
- ContractSearch.MultiPhraseSearch takes a list of phrases; one test passes a bare string
  instead. A phrase without terms matches nothing, which the tests leave open.
- JSON decoding of VCAP_SERVICES is a parameter (Decoder).
- hourglass/tests.py:150-162 calls the redis loader without its `env` argument, so it says
  nothing about the dictionary it checks. The model relies only on the other tests.
- Order of VCAP bindings: the loaders apply every binding with the requested name in order,
  so the last one wins. The tests have a single binding, so this rule is chosen.
- A redis binding missing one of its three credentials raises KeyError. The loader stops
  there, and the flag it returns says so.
- SettingsUtils.IsRunningTests is only pinned down by its four examples. The call with the
  process's own arguments (hourglass/tests.py:239) depends on how the suite is started.
- The HTTP-level tests are left out: the admin page status codes
  (data_capture/tests/test_admin.py:51-102), and the security headers, robots.txt and login
  tests of hourglass/tests.py.
- PriceListAdmin identifies a price list by its position in the store. A queryset is assumed
  to list each price list once, which a Django queryset does.
- `check_perms` requires the role to be in the role registry. A name outside it would be a
  KeyError, which the source never meets.
- BulkUpload.NoDuplicateJob and BulkUpload.Step2KeepsValid assume that the requests of one
  session run one after another. Two concurrent step-2 POSTs (a double submit; the ajax
  form does not disable its button) could both read the id before either deletes it and
  queue the job twice; concurrency is not modelled.

## Findings

| source | as written | input that shows it | evidently intended | confidence | as-written member | corrected member |
|---|---|---|---|---|---|---|
| frontend/source/js/data-capture/upload.js:96-97 | the filename test searches backwards from the name's length minus the entry's length, so it is true whenever the entry occurs anywhere in the name | accept ".csv" and a file "report.csv.exe" of type "application/x-msdownload" | an extension entry matches only names that end with it | medium; not executed | UploadWidgets.InnerExtensionAccepted | UploadWidgets.IntendedSingleEntry |

UploadWidgets.IsFileValid is the check as written. UploadWidgets.IsFileValidIntended is the
corrected check. The UploadInput setter, Change and UploadWidget.OnDrop use the check as
written, as the component does; UploadWidgets.UploadInput.SetUpgradedValueIntended is the
setter with the corrected check. UploadWidgets.IntendedAcceptsLess shows
that the correction only narrows what is accepted.
UploadWidgets.InnerExtensionRejectedAsIntended shows that the corrected check rejects the
example file.
