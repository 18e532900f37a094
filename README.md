# create-gameplan: the sandboxed operation recorder, in Dafny

create-gameplan scaffolds a project from a template repository. The
repository's "gameplan" module describes its work through an `operations`
object (`copy`, `template`, `json`, `spawn`). Nothing is done while the
gameplan runs. Each call validates its arguments at once and queues one
deferred todo. After the gameplan returns, the queue is drained in order.

This project models the logic that makes that safe:

- **Path sandbox** (`Sandbox`, with `PosixPath` for the parts of Node's
  `path.posix` it relies on). `resolvePath` flattens a path reference, joins
  it, resolves it against a root and rejects it with `OutOfBoundsFile` when
  `path.relative(root, result)` starts with `..`. Paths are sequences of
  components, and `Target` is an independent reference definition of where a
  reference lands.
- **Operation recorder** (`Gameplan`). It is a class `Recorder` whose `todos`
  queue each operation appends to. `Drain` is the sequential `reduce` chain,
  run against an abstract environment, and `RunGameplan` is the whole
  `runGameplan`. A gameplan is given as a `Script`: the calls it makes, the
  error it throws or rejects with on its own, and what each object it holds
  contains once it has settled. A template todo keeps a reference to its
  variables object and reads it when the todo runs. The file system and child processes are the environment: a
  function from a world and one effect to a failure or the next world.
  Every effect a run issues is recorded, so containment can be stated about
  the whole trace.
- **Option pipeline** (`Options`). It covers:
  - the option-definition schema, as a predicate, with the full violation
    list;
  - the projection into the argument parser's configuration and back to
    exactly the defined keys;
  - the prompt questions;
  - the merge `Object.assign({}, defaults, answers)`.
- **Template renderer** (`Template`): a left-to-right scan for
  `{{name}}` with a hard failure on an undefined name. It is related to a
  lexer plus substitution reference (`Lex`/`Fill`).
- **Helpers**:
  - `flatten` (`ArrayFlatten`).
  - `objectMap` (`JsObject.ObjectMap`, a loop over the entries). JavaScript
    objects are association lists of their entries in enumeration order.

Four behaviours of the code are easy to misread; the model follows the
code:

- **Absolute segments.** `path.join` only resets to `/` when the first
  non-empty segment is absolute. An absolute segment later in a reference is
  joined like any other (`Sandbox.LaterAbsoluteSegmentIsJoined`).
- **The `..` test is textual.** A name such as `..cfg` directly below the
  root is rejected as well (`Sandbox.DotDotPrefixedNameRejected`).
- **Parent traversal.** `['..', '..', 'etc', 'passwd']` is not rejected
  under every root. Under a root of two or more components it is accepted
  only when the root itself ends with `etc/passwd`
  (`Sandbox.ParentTraversalRejected`). Under `/` and `/etc` it is accepted
  too, because the surplus `..` stop at `/` and the path lands on
  `/etc/passwd` (`Sandbox.ParentTraversalShallowRoot`).
- **The root's parent.** The recursive `mkdir` of a todo may target the
  parent of the destination root, when the target is the root itself
  (`Gameplan.EffectConfined`).

## Model

| member | source | states |
|---|---|---|
| ArrayFlatten.Flatten | src/lib/flatten.js:3-6 | the `reduce`/`concat` recursion yields the leaves of the value, left to right, with no arrays left |
| ArrayFlatten.Reduce | src/lib/flatten.js:5 | the fold from any index appends the leaves of the remaining items to the accumulator |
| ArrayFlatten.FlattenBase | src/lib/flatten.js:4-6 | a non-array value flattens to `[value]`; `flatten([])` is `[]` |
| ArrayFlatten.FlattenLength | src/lib/flatten.js:5 | the result has one element per leaf |
| ArrayFlatten.FlattenAppend | src/lib/flatten.js:5 | flattening distributes over concatenation of arrays |
| ArrayFlatten.FlattenIdempotent | src/lib/flatten.js:3-6 | flattening a flattened array changes nothing |
| JsObject.ObjectMap | src/lib/object-map.js:3-8 | the loop over the entries, assigning into a fresh accumulator, yields the key-preserving value map of the input |
| JsObject.MapValuesEntries | src/lib/object-map.js:4-7 | the result has exactly the input's keys, in order and distinct; each present key maps to `mapper(value, key, obj)`, an absent key stays absent |
| JsObject.Set | src/lib/object-map.js:5 | `o[k] = v` keeps an existing key in place and appends a new key at the end |
| JsObject.SetGet | src/lib/object-map.js:5 | after `o[k] = v`, `k` reads `v` and every other key reads as before |
| JsObject.SetDistinct | src/lib/object-map.js:5 | assignment keeps the keys distinct |
| JsObject.Assign | src/index.js:161 | `Object.assign` keeps the target's keys first and in order, and the result's keys are exactly those of the target and the source |
| Template.MatchAt | src/lib/template.js:12 | a match of `{{([^}]+)}}` at an index ends exactly where the braces, a non-empty name without `}` and the closing braces end; there is at most one such end, and none means no match |
| Template.Render | src/lib/template.js:11-18 | the one-pass replace equals lexing into text and placeholders, then substituting each placeholder |
| Template.LexRoundTrip | src/lib/template.js:12 | the pieces spell out the content again, so text outside matches is kept verbatim |
| Template.PlaceholderNames | src/lib/template.js:12 | every placeholder name is a non-empty run of characters other than `}` |
| Template.FillSucceeds | src/lib/template.js:13-16 | substitution succeeds exactly when every placeholder names a defined variable |
| Template.FillFailsOnFirstUndefined | src/lib/template.js:13-15 | substitution fails with `UndefinedTemplateVariable(n)` exactly when `n` is the first undefined placeholder, left to right |
| Template.RenderFailsOnFirstUndefined | src/lib/template.js:11-15 | `template` throws for exactly the first undefined name of the content and returns no output |
| Template.NoPlaceholderUnchanged | src/lib/template.js:12 | content with no match is returned unchanged, whatever the variables |
| Template.RenderIdempotent | src/lib/template.js:12 | rendering an output that holds no placeholder syntax gives the same output |
| Template.SinglePlaceholder | src/lib/template.js:12-16 | a lone placeholder renders to exactly its value, which is never expanded again; an empty value is substituted; only an absent name fails |
| Template.EmptyBracesVerbatim | src/lib/template.js:12 | `{{}}` is not a placeholder and stays verbatim |
| Template.BraceInName | src/lib/template.js:12 | in `{{{a}}` the match starts at the first brace and the name is `{a` |
| PosixPath.RelativeStartsWithDots | src/index.js:103-110 | `path.relative(root, p)` starts with `..` exactly when `p` is neither the root nor below it through a first component that does not start with `..` |
| PosixPath.DirnameOfPathString | src/index.js:175 | `path.dirname` of a resolved path drops its last component, and gives `/` for `/` |
| Sandbox.AssertInside | src/index.js:103-110 | `OutOfBoundsFile.assert` passes a resolved path exactly when it is within the root, and otherwise throws `OutOfBoundsFile` with the directory and the path |
| Sandbox.ResolvedTarget | src/index.js:114-116 | `path.resolve(directory, path.join(...segments))` lands on the components of the reference definition `Target` |
| Sandbox.ResolveJoined | src/index.js:115-118 | joining and resolving string segments returns the path `Target` gives exactly when it is within the root, otherwise `OutOfBoundsFile` with the root as given and that path; a returned path is inside the root |
| Sandbox.ResolvePath | src/index.js:113-119 | `resolvePath` throws the `TypeError` of `path.join` exactly when a leaf of the reference is not a string; otherwise it acts as joining and resolving the leaves; whatever it returns is inside the root |
| Sandbox.StringsResolve | src/index.js:113-118 | an array of strings is joined as those strings |
| Sandbox.StringResolves | src/index.js:114 | a single string is joined as a one-segment reference |
| Sandbox.MissingPathRejected | src/index.js:113-115 | a missing path (`undefined`) is rejected by `path.join`, before anything is resolved |
| Sandbox.EmptyReferenceIsRoot | src/index.js:113-118 | an empty reference resolves to the root itself |
| Sandbox.NamesStayInside | src/index.js:113-118 | plain names, the first not starting with `..`, resolve below the root, appended to it |
| Sandbox.DotDotPrefixedNameRejected | src/index.js:104-106 | a name starting with `..`, such as `..cfg`, is rejected although it lies below the root |
| Sandbox.ParentTraversalRejected | src/index.js:103-118 | under a root of two or more components, `['..', '..', a, b]` lands two levels up and is rejected unless the root ends with `a/b` |
| Sandbox.ParentTraversalShallowRoot | src/index.js:103-118 | under `/` or a one-component root, `['..', '..', a, b]` lands on `/a/b` and is accepted exactly when the root is `/` or `/a` |
| Sandbox.AbsoluteReferenceIgnoresRoot | src/index.js:115-117 | `/a/b` ignores the root and is accepted only under `/`, `/a` or `/a/b` |
| Sandbox.LaterAbsoluteSegmentIsJoined | src/index.js:115 | `['a', '/b']` is joined as `a/b` below the root, not reset to `/b` |
| Options.ExtraKeys | src/index.js:28 | no `AdditionalProperty` violation exactly when every key is one of the five allowed properties |
| Options.BrokenRulesEmpty | src/index.js:26-47 | a definition breaks no rule exactly when it satisfies the definition schema |
| Options.EntriesViolationsEmpty | src/index.js:25-48 | no violation in any entry exactly when every definition is valid |
| Options.Violations | src/index.js:22-57 | the violation list is empty exactly when the definitions satisfy the schema |
| Options.EveryInvalidOptionReported | src/index.js:53-59 | with `allErrors`, every invalid definition is reported, not just the first |
| Options.AssertDefinitions | src/index.js:52-61 | the definitions are accepted exactly when valid, keeping their keys; otherwise `InvalidOptionDefinitions` carries the non-empty violation list |
| Options.ParserConfigFollowsDefinitions | src/index.js:122-130 | the parser configuration has the definitions' keys, each with its type, description and default, and `choices` exactly when the definition has them |
| Options.ParseCommandLineArguments | src/index.js:121-137 | the parsed options have exactly the defined keys, in order, each with the parser's value for that key |
| Options.ParsedKeysAreDefinedKeys | src/index.js:136 | the parsed options have exactly the defined keys, in order, each with the parser's value |
| Options.ParsedFallsBackToDefault | src/index.js:131-136 | with a parser that keeps its contract, an option absent from the command line takes its default |
| Options.Questions | src/index.js:141-160 | one question per definition, in order, with the option's name, its current value as default, and its choices |
| Options.QuestionsFollowDefinitions | src/index.js:141-160 | each question is a list, string or confirm by type and choices; its message is the prompt if non-empty, else the description if non-empty, else `name:` |
| Options.PromptForOptions | src/index.js:161 | the result's keys are those of the defaults and the answers; with distinct keys, an answered key reads the answer and any other key the default |
| Options.AssignGet | src/index.js:161 | after `Object.assign`, a key of the source reads the source's value and any other key reads as before |
| Options.AssignGetAll | src/index.js:161 | the same for every key at once |
| Options.AssignFromEmpty | src/index.js:161 | `Object.assign({}, o)` is a copy of `o` |
| Options.AssignKeysUnchanged | src/index.js:161 | assigning only existing keys leaves the key order unchanged |
| Options.AnswersOverrideDefaults | src/index.js:161 | the prompted options are the defaults overridden by the answers, with distinct keys, the defaults' keys first and in order, and no key from elsewhere |
| Options.PromptKeepsDefinedKeys | src/index.js:161 | when the answers name defined options only, the final options have exactly the defined keys |
| Options.SingleChoiceScenario | src/index.js:139-161 | one string option with choices gives one list question; answering `b` gives `{choice: 'b'}` |
| Gameplan.DeclareCopy | src/index.js:172-179 | `copy` resolves the source path first and throws the first error; otherwise its todo copies between the two resolved paths, inside their roots |
| Gameplan.DeclareTemplate | src/index.js:181-193 | `template` rejects non-object variables before any path; then the paths as for `copy`; the todo keeps the reference to the variables object and is confined |
| Gameplan.DeclareJson | src/index.js:195-202 | `json` throws exactly when the destination path does; the todo writes the text serialised at declaration, inside the destination |
| Gameplan.DeclareSpawn | src/index.js:204-211 | `spawn` queues the command with the leaves of its arguments, left to right, to run in the destination directory |
| Gameplan.Declare | src/index.js:171-213 | whatever a call declares is confined to the roots; `spawn` never throws |
| Gameplan.RecordIsCollect | src/index.js:170-212 | making the calls one by one appends their independent declarations to the queue, or stops at the first error |
| Gameplan.DeclareAllInOrder | src/index.js:170-214 | the calls declare a queue exactly when none throws; it then holds one todo per call, in call order |
| Gameplan.DeclareAllFirstError | src/index.js:214 | the error the gameplan raises is that of its first throwing call |
| Gameplan.DeclareAllConfined | src/index.js:171-213 | every todo of the queue the calls declare is confined to the roots |
| Gameplan.Issue | src/index.js:176-211 | an effect is recorded after those already issued, unless the todo has already failed, in which case nothing changes |
| Gameplan.ExecuteTodo | src/index.js:176-211 | a todo issues only effects on the paths it declared, each write with mode 0o644; a template renders the variables object as it is when the todo runs |
| Gameplan.RunTodos | src/index.js:215-218 | draining only appends effects, in push order, and a failed run stays as it is |
| Gameplan.RunTodosAppend | src/index.js:215-218 | draining `a + b` is draining `a`, then `b` from where `a` left off |
| Gameplan.FailureAbortsLaterTodos | src/index.js:215-218 | once a todo fails, later todos issue nothing and the first failure is what the run reports |
| Gameplan.DirnameInside | src/index.js:175 | the directory of a path inside a root is inside it too, or is the root's parent |
| Gameplan.ExecuteTodoConfined | src/index.js:176-211 | a confined todo issues only confined effects |
| Gameplan.RunTodosConfined | src/index.js:215-218 | draining confined todos issues no effect outside the roots |
| Gameplan.GameplanRun | src/index.js:164-219 | whatever the gameplan calls, throws or leaves in its objects, no effect of `runGameplan` reaches outside the roots |
| Gameplan.DeclarationErrorRunsNothing | src/index.js:214-218 | a call that throws means no todo runs and nothing is written |
| Gameplan.RejectionRunsNothing | src/index.js:214 | when `gameplan.run` throws or rejects on its own, no queued todo runs and the run ends with that reason |
| Gameplan.TemplateTodoWritesRenderedText | src/index.js:188-193 | a template todo writes the rendered text with mode 0o644 when every placeholder is defined in the variables object as it is then; otherwise it fails with the first undefined name and writes nothing |
| Gameplan.TemplateSeesLaterAssignment | src/index.js:181-193 | a template declared with an empty variables object writes `x` for `{{name}}` once the gameplan has set `name` to `'x'` on that object |
| Gameplan.DefinedVariables | src/lib/template.js:13 | only a strictly `undefined` value hides a variable; `''`, `false` and `null` are substituted as text |
| Gameplan.Recorder.constructor | src/index.js:170 | a recorder starts with an empty queue |
| Gameplan.Recorder.Push | src/index.js:176 | a valid declaration is appended at the end of the queue; an error leaves the queue unchanged |
| Gameplan.Recorder.Copy | src/index.js:172-180 | `copy` appends exactly its declared todo, or throws and leaves the queue unchanged |
| Gameplan.Recorder.Template | src/index.js:181-194 | `template` appends exactly its declared todo, which refers to the variables object, or throws and leaves the queue unchanged |
| Gameplan.Recorder.Json | src/index.js:195-203 | `json` appends exactly its declared todo, with the text serialised at declaration, or throws and leaves the queue unchanged |
| Gameplan.Recorder.Spawn | src/index.js:204-212 | `spawn` always appends one todo, with flattened arguments, running in the destination |
| Gameplan.Recorder.Perform | src/index.js:171-213 | each call appends exactly one todo at the end and leaves earlier entries unchanged, or throws and leaves the queue unchanged; the queue stays confined |
| Gameplan.Recorder.Drain | src/index.js:215-218 | the `reduce` chain runs the todos in push order, each finishing before the next, stopping at the first failure; no effect reaches outside the roots |
| Gameplan.RunGameplan | src/index.js:164-219 | `runGameplan` records the gameplan's calls on a fresh queue, then drains it; a throwing call, or a rejection of `run` itself, ends the run before any todo |

## Left out

- The file system and child processes (src/lib/fs-async.js, src/lib/spawn-async.js) are an abstract environment. Each effect either fails or yields the next world; what `mkdir`, `copyFile`, `readFile`, `writeFile` and the spawned process do is not modelled.
- The orchestrator `run` is not modelled: the destination `mkdir`, `DirectoryNotEmpty`, `mkdtemp`, the git clone, the `require` of the module, `InvalidRunMethod` and the CLI. So is the removal of the temporary directory, which happens in a `finally` on every exit path.
- The validator library's error objects are not modelled. `Options.Violations` lists the broken rules per option in its own format.
- Argument parsing itself, including strict rejection of unknown flags, is a parameter. `Options.ParsedFallsBackToDefault` assumes the parser keeps its contract (`Options.ParserContract`).
- The prompt is a parameter: its answers are an input of `Options.PromptForOptions`.
- `JSON.stringify(fromObject, null, 2)` is a parameter of the context. Only the fact that it is applied at declaration is modelled.
- `isObject` (src/lib/is-object.js) is not part of this model; it is a parameter of the context.
- `process.cwd()` is a parameter, the absolute working directory `cwd`.
- Windows path semantics are not modelled, and neither are prototype-chain lookups such as `variables['constructor']`.
- Numbers are integers: `JsObject.ToText` prints no fractions or exponents.
- JsObject.Set: JavaScript enumerates integer-like keys (`'0'`, `'12'`) before all other keys, in ascending order. The model keeps insertion order for every key, so for such keys the order of the prompt questions and of the merged options can differ from the real one.
- Gameplan.GameplanRun: the objects a template reads are taken as they stand once `gameplan.run` has settled (`Script.settled`). A change made by other asynchronous code while the queue drains is not modelled.
- Gameplan.DeclareSpawn: the command is taken as a string. The source passes any value through to `spawnAsync` unchecked, as it does the arguments; what the process does with them is the environment's.
- Gameplan.TemplateVariables: a value that passes `isObject` but is not a plain object (an array, say) is read as offering no variables.
- Gameplan.RunGameplan: a gameplan that catches an error thrown by an operation and goes on calling is not modelled. The first throwing call ends the run, as it does when the error propagates out of `gameplan.run`.
- PosixPath.Dirname: only defined for paths `path.resolve` produces, which are absolute with no trailing separator.
- Options.PromptKeepsDefinedKeys: requires that the answers name only defined options, which is what a prompt built from the questions returns.
