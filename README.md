# Socrates test-tree synthesis and setup, modelled in Dafny

Socrates is a grading assistant. A criteria document describes the files a
submission must contain. Each file carries a list of tests, and each file's
tests are arranged into a test tree. This project models the core of that:

- **Base test root of an expected file** (`TestTrees`, `Files`). The due dates
  are visited latest first. Each one becomes a late-submission test, and these
  tests are gathered in a group that counts at most one failure. That group is
  inserted in place at the front of the file's test list. The whole list is
  then wrapped in a root group whose value ceiling is the file's point value.
- **Python and Java variants** (`PythonFiles`, `JavaFiles`). Each builds
  "exists, then details" gating groups.
  - Python: one unit per variable and per function, all gated by an import test.
  - Java: one group per class, holding the class-level tests and one group per method.
  - Also modelled: the `hasTest` scan, the owner-of-a-test searches and the
    Python module name.
- **Loading criteria** (`CriteriaLoading`).
  - The extension tests.
  - Classifying the files of an unpacked package: the criteria document,
    `static/` resources and `scripts/`.
  - The choice between loading a document and loading a package.
  - Creating the files and synthesizing their roots.
  - Finding a file by its path.
- **Test-group labels** in the grading view (`GroupLabels`).
- **Custom circuits** in Logicly files (`Circuits`): copying the switches and
  bulbs into place, and evaluating a circuit.
- **The setup controller** (`Setup`):
  - choosing criteria;
  - choosing a batch of submissions, split into loaded submissions and
    per-path errors;
  - the pluralised error message and title;
  - handing over to grading.

Several things are parameters of the model rather than part of it:

- parsing a criteria document;
- unpacking and walking a package;
- loading one submission directory;
- the value a switch evaluates to;
- decimal formatting of a point value.

The late group, the units and the class groups are modelled as a
`datatype Node = Leaf(Test) | Group(members, maxNum, maxValue)`. Its
arguments are exactly those the source passes to its test-group
constructor. Tests written in the criteria document are
`Declared(id)` with unique ids. Value equality therefore stands for
the object identity the source compares tests with.

## Model

| member | source | states |
|---|---|---|
| TestTrees.HasTest | src/main/java/io/breen/socrates/file/python/PythonFile.java:41-47 | The scan as written. A test `hasTest` reports is a test lying somewhere below the list. |
| TestTrees.HasTestMissesTestAfterGroup | src/main/java/io/breen/socrates/file/python/PythonFile.java:41-47 | As written, the scan misses a test placed after a group that does not hold it, although the test lies in the list (see Findings). |
| TestTrees.ContainsTestIsMembership | src/main/java/io/breen/socrates/file/python/PythonFile.java:41-47 | The search `hasTest` evidently intends, `ContainsTest`, holds exactly when the test lies somewhere below the list. |
| TestTrees.HasTestOnFlatList | src/main/java/io/breen/socrates/file/python/PythonFile.java:41-47 | On a list of tests only, `hasTest` holds exactly when the test is a member. In particular it is false on the empty list. |
| TestTrees.HasTestFindsLeadingTest | src/main/java/io/breen/socrates/file/python/PythonFile.java:42-43 | A test placed before every group of the list is found. |
| TestTrees.HasTestStopsAtFirstGroup | src/main/java/io/breen/socrates/file/java/JavaFile.java:34-40 | Once the scan reaches the first group with no match before it, the answer is that group's own answer. Later siblings are never looked at. This holds for both the Java and the Python `hasTest`. |
| PythonFiles.BuildUnits | src/main/java/io/breen/socrates/file/python/PythonFile.java:56-88 | The two loops give the units of all variables and then of all functions, in declaration order. An entity with no tests gives its bare exists-test. Otherwise it gives `Group([exists, Group(tests, 0, 0.0)], 1, 0.0)`. |
| PythonFiles.ImportGroup | src/main/java/io/breen/socrates/file/python/PythonFile.java:92-99 | The import group has maxNum 1 and maxValue 0.0, and its first member is the import test, carrying the file's import-failure deduction (PythonFile.java:23). It has a second member exactly when there are units. The tests below it are the import test followed by every unit's tests. |
| PythonFiles.UnitsLeaves | src/main/java/io/breen/socrates/file/python/PythonFile.java:58-88 | Gating loses and repeats nothing. Below the units lie each variable's exists-test and tests, then each function's. |
| PythonFiles.GetVariableForTest | src/main/java/io/breen/socrates/file/python/PythonFile.java:111-116 | The result is None exactly when `hasTest`, as written, finds the test in no variable's list. Otherwise it is the first variable whose list it finds it in. |
| PythonFiles.GetVariableForTestIntended | src/main/java/io/breen/socrates/file/python/PythonFile.java:111-116 | The corrected lookup of Findings: None exactly when no variable's list contains the test at any depth, otherwise the first variable whose list does. |
| PythonFiles.GetFunctionForTest | src/main/java/io/breen/socrates/file/python/PythonFile.java:118-123 | The result is None exactly when `hasTest`, as written, finds the test in no function's list. Otherwise it is the first function whose list it finds it in. |
| PythonFiles.GetFunctionForTestIntended | src/main/java/io/breen/socrates/file/python/PythonFile.java:118-123 | The corrected lookup of Findings: None exactly when no function's list contains the test at any depth, otherwise the first function whose list does. |
| PythonFiles.ModuleName | src/main/java/io/breen/socrates/file/python/PythonFile.java:125-130 | The module name is one of the pieces between the dots of the file name, so it has no dot. It is only defined when the name splits into at least two pieces. |
| PythonFiles.ModuleNameOfSourcePath | src/main/java/io/breen/socrates/file/python/PythonFile.java:125-130 | The module name of `dir/stem.ext` is the last dot-separated piece of `stem`: `stem` itself when it has no dot (`dir/hw1.py` gives `hw1`), and `b` for `dir/a.b.py`. |
| JavaFiles.BuildMethodRoots | src/main/java/io/breen/socrates/file/java/JavaFile.java:54-66 | Every method becomes `Group([MethodExists, Group(m.tests, 0, 0.0)], 1, 0.0)`, even when it has no tests, in declaration order. |
| JavaFiles.BuildClassGroups | src/main/java/io/breen/socrates/file/java/JavaFile.java:51-81 | Every class becomes `Group([ClassExists, Group(classTests ++ methodGroups, 0, 0.0)], 1, 0.0)`, in class order. |
| JavaFiles.ClassGroupsLeaves | src/main/java/io/breen/socrates/file/java/JavaFile.java:51-81 | Below the class groups lie, class by class, the class's exists-test, its class-level tests and then each method's exists-test and tests. |
| JavaFiles.GetClassForMethod | src/main/java/io/breen/socrates/file/java/JavaFile.java:95-101 | The result is None exactly when no class lists the method. Otherwise it is the first class that does. |
| JavaFiles.GetMethodForTest | src/main/java/io/breen/socrates/file/java/JavaFile.java:103-109 | The result is None exactly when `hasTest`, as written, finds the test in no method's list. Otherwise it is the first method whose list it finds it in, in class order and then method order. |
| JavaFiles.GetMethodForTestIntended | src/main/java/io/breen/socrates/file/java/JavaFile.java:103-109 | The corrected lookup of Findings: None exactly when no method's list contains the test at any depth, otherwise the first such method, in class order and then method order. |
| Files.BuildLateTests | src/main/java/io/breen/socrates/immutable/file/File.java:81-96 | There is one late test per due date, carrying that date and its deduction. The dates are strictly descending, latest first. |
| Files.LateHeadIsLatest | src/main/java/io/breen/socrates/immutable/file/File.java:86-95 | The first late test is for the latest due date. |
| Files.LateTail | src/main/java/io/breen/socrates/immutable/file/File.java:81-96 | Without its first test, the list is the late-test list of the remaining due dates. |
| Files.LateTestListUnique | src/main/java/io/breen/socrates/immutable/file/File.java:81-96 | Two late-test lists for the same due dates are equal, so the late group is fully determined by the due dates. |
| Files.File.constructor | src/main/java/io/breen/socrates/immutable/file/File.java:22-52 | The fields as the document parser fills them in: path, point value, content type, due dates, test list and variant as given, and no test root yet. |
| Files.File.Verify | src/main/java/io/breen/socrates/immutable/file/File.java:67-71 | A file is accepted exactly when its path, content type and test list are all present. |
| Files.File.CreateBaseRoot | src/main/java/io/breen/socrates/immutable/file/File.java:79-110 | Without due dates, `tests` is unchanged. With due dates, the late group (maxNum 1, maxValue 0.0) becomes element 0 and the old tests follow, shifted by one. Either way the root is `Group(tests, 0, pointValue)`. |
| Files.File.CreateTestRoot | src/main/java/io/breen/socrates/file/python/PythonFile.java:54-104 | Each variant's root is the base root's members followed by what the variant adds. Python adds the import group as the last member. Java adds the class groups (JavaFile.java:85-87). |
| Files.File.AfterConstruction | src/main/java/io/breen/socrates/immutable/file/File.java:62-65 | The stored test root is the one synthesized from the test list. |
| Files.SynthesizeTwice | src/main/java/io/breen/socrates/immutable/file/File.java:106 | Synthesis changes `tests` in place. Running it twice inserts two late groups, so the roots differ and it is not idempotent. |
| Files.RootLeaves | src/main/java/io/breen/socrates/immutable/file/File.java:79-110 | The tests below a root are the late tests, then the raw tests in order, then the variant's tests. |
| Files.PythonRootLeaves | src/main/java/io/breen/socrates/file/python/PythonFile.java:90-103 | The tests below a Python root are the late tests, the raw tests, the import test with the file's deduction, then each variable's and each function's tests. |
| Files.JavaRootLeaves | src/main/java/io/breen/socrates/file/java/JavaFile.java:85-87 | The tests below a Java root are the late tests, the raw tests, then each class's tests. |
| CriteriaLoading.EndsWithExtension | src/main/java/io/breen/socrates/criteria/Criteria.java:138-142 | The result is true exactly when the name ends with '.' followed by one of the extensions. |
| CriteriaLoading.LooksLikeCriteriaFile | src/main/java/io/breen/socrates/criteria/Criteria.java:34 | A name is a criteria document exactly when it ends with ".scf" or ".yml". |
| CriteriaLoading.LooksLikeCriteriaPackage | src/main/java/io/breen/socrates/criteria/Criteria.java:144-148 | A name is a package exactly when it ends with ".scp" or ".zip". |
| CriteriaLoading.CriteriaAndPackageNamesDisjoint | src/main/java/io/breen/socrates/criteria/Criteria.java:76-79 | No name is both a document and a package. |
| CriteriaLoading.LooksLikeStaticResource | src/main/java/io/breen/socrates/criteria/Criteria.java:130-132 | A file counted as a static resource sits in a directory whose path ends "static". |
| CriteriaLoading.LooksLikeScript | src/main/java/io/breen/socrates/criteria/Criteria.java:134-136 | A file counted as a script sits in a directory whose path ends "scripts". |
| CriteriaLoading.ResourceDirectories | src/main/java/io/breen/socrates/criteria/Criteria.java:130-136 | A file directly under a `static/` directory is a static resource and not a script. A file directly under `scripts/` is a script and not a static resource. |
| CriteriaLoading.LastCriteriaIsLastVisited | src/main/java/io/breen/socrates/criteria/Criteria.java:99-113 | No criteria document is found exactly when no visited file has a document extension. Otherwise the one found is the last such file visited. |
| CriteriaLoading.ResourcesAreLastByName | src/main/java/io/breen/socrates/criteria/Criteria.java:101-104 | A name is kept exactly when some visited non-document file in that directory has that bare name. The file kept is the last such one visited. |
| CriteriaLoading.ResourcesDisjoint | src/main/java/io/breen/socrates/criteria/Criteria.java:99-105 | No file is both a static resource and a script, and the criteria document is neither. |
| CriteriaLoading.ClassifyWalk | src/main/java/io/breen/socrates/criteria/Criteria.java:92-110 | The visitor loop gives the last criteria document, the static map and the scripts map, as specified above. |
| CriteriaLoading.ParseFailure | src/main/java/io/breen/socrates/criteria/Criteria.java:254-260 | An unreadable file is an I/O failure. An empty document is invalid with "criteria file is empty". A syntax error is invalid with the parser's message. |
| CriteriaLoading.CheckCriteriaObject | src/main/java/io/breen/socrates/criteria/Criteria.java:150-152 | The check fails, with "criteria file is empty", exactly when there is no criteria object. |
| CriteriaLoading.Criteria.constructor | src/main/java/io/breen/socrates/criteria/Criteria.java:65-68 | The criteria hold the given assignment name and files. They have no resources and no temporary directory yet. |
| CriteriaLoading.Criteria.GetFileByLocalPath | src/main/java/io/breen/socrates/criteria/Criteria.java:288-295 | The result is None exactly when no file has the path. Otherwise it is the first file that does. Files after the match may lack a path. |
| CriteriaLoading.LoadCriteriaFile | src/main/java/io/breen/socrates/criteria/Criteria.java:252-265 | Loading succeeds exactly when the document parses. On success there is one fresh, distinct file per document entry, with its fields and its synthesized root. On failure the error is the parse failure. |
| CriteriaLoading.LoadFromPath | src/main/java/io/breen/socrates/criteria/Criteria.java:71-128 | The document extension is checked before the package extension, and any other name is loaded as a document. A package that cannot be unpacked gives an I/O failure. A package with no document gives "could not find criteria file in package". Otherwise the last document is loaded and gets both resource maps and the temporary directory. |
| GroupLabels.GroupLabel | src/main/java/io/breen/socrates/view/main/TestTree.java:129-149 | The label is "fail any" exactly when both ceilings are unbounded. It starts "fail ≤ " exactly when the count is bounded. It starts "take ≤ " exactly when only the value is bounded. It ends " points" exactly when the value is bounded. So the four cases never overlap. |
| GroupLabels.LabelDeterminesCeilings | src/main/java/io/breen/socrates/view/main/TestTree.java:135-148 | A label determines the count ceiling and whether the value is bounded. It also determines the formatted value. |
| Circuits.CustomCircuit.constructor | src/main/java/io/breen/socrates/test/logicly/CustomCircuit.java:11-16 | The input and output slots are fresh arrays holding exactly the given switches and bulbs, and the name is stored. |
| Circuits.CustomCircuit.Evaluate | src/main/java/io/breen/socrates/test/logicly/CustomCircuit.java:18-27 | Evaluation succeeds exactly when every input at an output position is connected. It then gives a fresh array with one value per output, each the value of the switch at the same position. Neither slot array changes. |
| Setup.PartitionSubmissions | src/main/java/io/breen/socrates/controller/SetupController.java:65-80 | The loop gives the loaded submissions in choice order and the failures keyed by path. |
| Setup.ErrorsByPath | src/main/java/io/breen/socrates/controller/SetupController.java:67-80 | A path is an error key exactly when it was chosen and failed, with its failure. No chosen path is both loaded and failed. |
| Setup.SuccessesAppend | src/main/java/io/breen/socrates/controller/SetupController.java:66-69 | The loaded submissions keep the order of the chosen paths. |
| Setup.SuccessesAndFailuresCover | src/main/java/io/breen/socrates/controller/SetupController.java:67-80 | Loaded submissions plus failed positions account for every chosen path. |
| Setup.ErrorCountOfDistinctPaths | src/main/java/io/breen/socrates/controller/SetupController.java:82-83 | The error count counts distinct paths, so it equals the number of failures when no path was chosen twice. |
| Setup.ErrorMessage | src/main/java/io/breen/socrates/controller/SetupController.java:89-95 | The message opens with the number of failures. It ends with the "available to grade." sentence exactly when some submission loaded. |
| Setup.ProblemGrammar | src/main/java/io/breen/socrates/controller/SetupController.java:89-90 | It says "submission" for exactly one failure and "submissions" otherwise. |
| Setup.RemainingGrammar | src/main/java/io/breen/socrates/controller/SetupController.java:91-95 | It says "submission is" for one loaded submission, "submissions are" for more, and nothing for none. |
| Setup.ErrorMessageGrammar | src/main/java/io/breen/socrates/controller/SetupController.java:89-95 | The whole message starts "… N submission." for one failure and "… N submissions." otherwise. It ends "submission is available to grade." for one loaded submission and "submissions are available to grade." for more. |
| Setup.ErrorMessageDeterminesCounts | src/main/java/io/breen/socrates/controller/SetupController.java:89-95 | The message determines both the number of failures and the number loaded. |
| Setup.ErrorTitle | src/main/java/io/breen/socrates/controller/SetupController.java:96-97 | The title ends " Opening Submissions" and starts "Errors" exactly when there is not exactly one failure. |
| Setup.SetupController.constructor | src/main/java/io/breen/socrates/controller/SetupController.java:22-31 | A new controller has no criteria and no submissions (the fields start null), the window is not shown, and no dialog or hook has happened. |
| Setup.SetupController.OnCriteriaChosen | src/main/java/io/breen/socrates/controller/SetupController.java:32-59 | A failed load keeps the previous criteria and screen and shows the error dialog. A success stores the criteria and runs the after-load hook. It then asks for submissions, or goes to grading when submissions are already chosen. |
| Setup.SetupController.OnSubmissionsChosen | src/main/java/io/breen/socrates/controller/SetupController.java:61-112 | The submissions are replaced by the batch's loaded ones, even when none loaded. Failures are reported in one dialog with the message and title above. Grading starts, after the before-grading hook, exactly when at least one submission loaded. |
| Setup.SetupController.Start | src/main/java/io/breen/socrates/controller/SetupController.java:115-133 | Start skips the steps whose result is already given and runs the matching hooks. |
| Setup.SetupController.TransferToMain | src/main/java/io/breen/socrates/controller/SetupController.java:135-139 | Handing over passes the current criteria and submissions to grading. |
| Common.NatToStringRoundTrip | src/main/java/io/breen/socrates/controller/SetupController.java:89-90 | Reading back the decimal rendering of a count gives the count. |

## Left out

- YAML parsing and the registry of document tags (Criteria.java:160-260) are a foreign library. They are a `parse` parameter giving a document, an empty document, a syntax error or an unreadable file.
- Unzipping, temporary directories, the file-tree walk and readers are file-system I/O. They are an `unpack` parameter: the directory and the visited paths in visiting order, or None when unpacking fails.
- Path normalisation is not modelled. Paths are `/`-separated strings compared as text, so redundant or trailing separators are not folded. A walked file directly under the file-system root is not modelled either: its parent has no name, so the source would fail on it, while the model classifies it as an ordinary file.
- `Submission.fromDirectory` is disk I/O, modelled as a function from path to outcome. A submission holds only its directory.
- Every Swing part is left out: cards, dialogs, choosers, `dispose` and the `DetailOptionPane` detail text. In particular, the per-error lines of that detail text depend on hash-map iteration order and on exception text. Dialogs, screens and hooks are recorded as controller state, and the hooks' own effects are left out.
- `DecimalFormat("#.#")` is floating-point formatting. It is an uninterpreted `fmt` parameter of `GroupLabels.GroupLabel`.
- The test-group class is not part of this model: its failure aggregation, deduction capping and conversion of `maxNum`/`maxValue` to ceilings. Groups keep their raw constructor arguments, and labels take ceilings directly.
- Whether a test group shares its member list with the file's `tests` list is unknown. If it does, later `root.members.add` calls would alias. The root is modelled as a value.
- The late-submission, import and exists tests appear only as leaf values (`Test`), with the fields the synthesis gives them. Review tests, script exit records and submission-completed change events are not modelled: they are not part of the synthesis, the loading or the setup flow modelled here.
- Switches, bulbs and their own evaluation are not part of this model. A switch's value is a `valueOf` parameter. Evaluation never fails inside a switch, and `Evaluate` takes the first value of the switch's output as that value.
- `Circuits.CustomCircuit.Evaluate`: requires at least as many inputs as outputs, because the source indexes the inputs by output position and would fail out of bounds otherwise.
- `CriteriaLoading.Criteria.GetFileByLocalPath`: requires every file before the first match to have a path, because the source would fail on a missing path it reaches. Paths are compared as text, without `Path` normalisation.
- `CriteriaLoading.LoadCriteriaFile`: a parsed document's files always carry a test list. A file's list defaults to an empty one (File.java:47), so only an explicit null list fails; with due dates that happens at the front insertion (File.java:106). This null case is not modelled. The parser's creation of all files before any root is made is merged into one pass, which ends in the same state.
- `CriteriaLoading.LoadCriteriaFile`: a parsed document always has a list of files, and every entry is a file. In the source `files` has no initial value (Criteria.java:50). A document without a `files` key, or with a null entry, makes the loop at Criteria.java:262-263 fail with a null dereference, which the setup controller does not catch (SetupController.java:38-39). That crash is not modelled.
- `CriteriaLoading.LoadFromPath`: inherits the same gap from the document it loads. A missing `files` list or a null entry is not modelled.
- The four-argument `File` constructor (File.java:54-60) is not a member of its own. It amounts to `Files.File.constructor` followed by `Files.File.AfterConstruction`, without a content type. The model reaches files only through the parser.
- The plain-text, PDF, Logicly and JFLAP file variants are not part of this model. They are represented by `OtherKind`, which adds nothing to the base synthesis. Any synthesis or gating of their own, such as the Logicly variant's, is not modelled.
- `CriteriaLoading.LooksLikeStaticResource`, `CriteriaLoading.LooksLikeScript`: only state that the directory path ends with the name, not that the name is a whole path component; `CriteriaLoading.ResourceDirectories` states the whole-component case for paths built from a directory and a name.
- `JavaFiles.GetClassForMethod`: a method is found by value equality. The source uses `List.contains`, whose `equals` on methods is not part of this model.
- Dates are integer timestamps. Logger calls are left out.
- The unfinished tree-navigation stubs of `TestTree` are left out, as is the rest of that view.

## Findings

| source | as written | input that shows it | evidently intended | confidence | as-written member | corrected member |
|---|---|---|---|---|---|---|
| src/main/java/io/breen/socrates/file/python/PythonFile.java:41-47 (and src/main/java/io/breen/socrates/file/java/JavaFile.java:34-40) | `hasTest` returns the recursive answer of the first group it meets, so later siblings of that group are never searched | the list `[Group([], 0, 0.0), Leaf(t)]` with test `t`: the scan answers false | a group without the test lets the scan go on, so the answer is true exactly when the test lies in the list | medium, not executed | TestTrees.HasTest, TestTrees.HasTestMissesTestAfterGroup (the search of PythonFiles.GetVariableForTest, PythonFiles.GetFunctionForTest and JavaFiles.GetMethodForTest) | TestTrees.ContainsTest, TestTrees.ContainsTestIsMembership (the search of PythonFiles.GetVariableForTestIntended, PythonFiles.GetFunctionForTestIntended and JavaFiles.GetMethodForTestIntended) |
