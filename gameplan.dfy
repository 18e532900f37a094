/**
 * `runGameplan` (src/index.js): the operation recorder a gameplan module
 * drives. Each operation validates its arguments at once and, when they are
 * acceptable, appends one deferred todo to a queue; after the gameplan has
 * run, the queue is drained in order, each todo finishing before the next
 * starts, and the first failure abandons the rest.
 *
 * The file system and child processes are an environment `env`: given the
 * current world and one effect, it either fails or yields the next world and
 * the effect's text output (the contents, for a read).
 */
module Gameplan {
  import opened Wrappers
  import opened Errors
  import opened ArrayFlatten
  import opened JsObject
  import opened PosixPath
  import opened Sandbox
  import Template

  /** `{ mode: 0o644 }`, the mode of every written file. */
  const FileMode: int := 0x1A4

  /** What the recorder closes over: the working directory, the two roots, and the helpers it calls. */
  datatype Context = Context(
    cwd: string,
    sourceDirectory: string,
    destinationDirectory: string,
    isObject: JsValue -> bool,
    stringify: JsValue -> string)

  /** Identifies one object a gameplan holds; the gameplan may change what it holds at any time. */
  type Ref = nat

  /** One call a gameplan makes on `operations`; paths and arguments are whatever values it passes. */
  datatype Operation =
    | CopyCall(fromPath: JsValue, toPath: JsValue)
    /** `variables` is the argument as it is at the call, `variablesRef` the object it refers to. */
    | TemplateCall(fromPath: JsValue, toPath: JsValue, variables: JsValue, variablesRef: Ref)
    | JsonCall(fromObject: JsValue, toPath: JsValue)
    | SpawnCall(command: string, args: seq<JsValue>)

  /**
   * What `gameplan.run` does: the calls it makes on `operations`, in order;
   * the value it throws or rejects with on its own after them, if any; and
   * what each object it holds contains once it has settled.
   */
  datatype Script = Script(calls: seq<Operation>, rejection: Option<JsValue>, settled: Ref -> JsValue)

  /**
   * A deferred todo. Paths, the directory to create, the JSON text and the
   * spawn arguments are fixed when it is declared; a template todo keeps a
   * reference to its variables object and reads it only when it runs.
   */
  datatype Todo =
    | CopyTodo(from: string, to: string, dirnameTo: string)
    | TemplateTodo(from: string, to: string, dirnameTo: string, variables: Ref)
    | JsonTodo(to: string, dirnameTo: string, contents: string)
    | SpawnTodo(command: string, args: seq<JsValue>, cwd: string)

  /** One request a todo makes of the file system or the process table. */
  datatype Effect =
    | Mkdir(path: string)
    | ReadFile(path: string)
    | CopyFile(from: string, to: string)
    | WriteFile(path: string, contents: string, mode: int)
    | SpawnProcess(command: string, args: seq<JsValue>, cwd: string)

  /** The effects issued so far, the world they left, and the failure that stopped the run, if any. */
  datatype Run<W> = Run(effects: seq<Effect>, world: W, failure: Option<Failure>)

  type Environment<!W> = (W, Effect) -> Result<(W, string), Failure>

  function Start<W>(world: W): Run<W>
  {
    Run([], world, None)
  }

  // ---------------------------------------------------------------------
  // Declaring todos

  /**
   * `copy(fromPath, toPath)`: the source path is resolved first, and the
   * first that fails is the error thrown; the todo copies between the
   * resolved paths, which lie inside their roots.
   */
  function DeclareCopy(ctx: Context, fromPath: JsValue, toPath: JsValue): (r: Result<Todo, Failure>)
    requires IsAbsolute(ctx.cwd)
    ensures var from := ResolvePath(ctx.cwd, ctx.sourceDirectory, fromPath);
      var to := ResolvePath(ctx.cwd, ctx.destinationDirectory, toPath);
      && (r.Ok? <==> from.Ok? && to.Ok?)
      && (r.Err? ==> r.error == if from.Err? then from.error else to.error)
      && (r.Ok? ==> r.value.CopyTodo? && r.value.from == from.value && r.value.to == to.value && Confined(ctx, r.value))
  {
    match ResolvePath(ctx.cwd, ctx.sourceDirectory, fromPath)
    case Err(e) => Err(e)
    case Ok(from) =>
      match ResolvePath(ctx.cwd, ctx.destinationDirectory, toPath)
      case Err(e) => Err(e)
      case Ok(to) => Ok(CopyTodo(from, to, Dirname(to)))
  }

  /**
   * `template(fromPath, toPath, variables)`: variables that are not an object
   * are rejected whatever the paths; then the paths are resolved as for
   * `copy`. The todo keeps the reference to the variables object, not its
   * contents at this moment.
   */
  function DeclareTemplate(ctx: Context, fromPath: JsValue, toPath: JsValue, variables: JsValue, variablesRef: Ref): (r: Result<Todo, Failure>)
    requires IsAbsolute(ctx.cwd)
    ensures !ctx.isObject(variables) ==> r == Err(TemplateVariablesNotObject)
    ensures var from := ResolvePath(ctx.cwd, ctx.sourceDirectory, fromPath);
      var to := ResolvePath(ctx.cwd, ctx.destinationDirectory, toPath);
      ctx.isObject(variables) ==>
        && (r.Ok? <==> from.Ok? && to.Ok?)
        && (r.Err? ==> r.error == if from.Err? then from.error else to.error)
        && (r.Ok? ==> r.value.TemplateTodo? && r.value.from == from.value && r.value.to == to.value)
    ensures r.Ok? ==> r.value.TemplateTodo? && r.value.variables == variablesRef && Confined(ctx, r.value)
  {
    if !ctx.isObject(variables) then Err(TemplateVariablesNotObject)
    else
      match ResolvePath(ctx.cwd, ctx.sourceDirectory, fromPath)
      case Err(e) => Err(e)
      case Ok(from) =>
        match ResolvePath(ctx.cwd, ctx.destinationDirectory, toPath)
        case Err(e) => Err(e)
        case Ok(to) => Ok(TemplateTodo(from, to, Dirname(to), variablesRef))
  }

  /**
   * `json(fromObject, toPath)`: the destination is resolved, and the text is
   * serialised now, at declaration, so later changes to the object are not
   * written.
   */
  function DeclareJson(ctx: Context, fromObject: JsValue, toPath: JsValue): (r: Result<Todo, Failure>)
    requires IsAbsolute(ctx.cwd)
    ensures var to := ResolvePath(ctx.cwd, ctx.destinationDirectory, toPath);
      && (r.Ok? <==> to.Ok?)
      && (r.Err? ==> r.error == to.error)
      && (r.Ok? ==> r.value.JsonTodo? && r.value.to == to.value && r.value.contents == ctx.stringify(fromObject))
    ensures r.Ok? ==> Confined(ctx, r.value)
  {
    match ResolvePath(ctx.cwd, ctx.destinationDirectory, toPath)
    case Err(e) => Err(e)
    case Ok(to) => Ok(JsonTodo(to, Dirname(to), ctx.stringify(fromObject)))
  }

  /**
   * `spawn(command, ...args)`: never rejected; the arguments are the leaves of
   * the argument list, left to right, and the process runs in the destination
   * directory.
   */
  function DeclareSpawn(ctx: Context, command: string, args: seq<JsValue>): (t: Todo)
    ensures t.SpawnTodo? && t.command == command && t.cwd == ctx.destinationDirectory
    ensures t.args == Leaves(AsNested(Arr(args)))
  {
    SpawnTodo(command, Flatten(AsNested(Arr(args))), ctx.destinationDirectory)
  }

  /** What one call on `operations` declares, or the error it throws; whatever it declares is confined to the roots. */
  function Declare(ctx: Context, call: Operation): (r: Result<Todo, Failure>)
    requires IsAbsolute(ctx.cwd)
    ensures r.Ok? ==> Confined(ctx, r.value)
    ensures call.SpawnCall? ==> r.Ok?
  {
    match call
    case CopyCall(fromPath, toPath) => DeclareCopy(ctx, fromPath, toPath)
    case TemplateCall(fromPath, toPath, variables, variablesRef) => DeclareTemplate(ctx, fromPath, toPath, variables, variablesRef)
    case JsonCall(fromObject, toPath) => DeclareJson(ctx, fromObject, toPath)
    case SpawnCall(command, args) => Ok(DeclareSpawn(ctx, command, args))
  }

  /**
   * The queue after `calls` are made in order on a queue holding
   * `queue`; the first call that throws ends the gameplan with its
   * error, and the calls after it are never made.
   */
  function Record(ctx: Context, queue: seq<Todo>, calls: seq<Operation>): Result<seq<Todo>, Failure>
    requires IsAbsolute(ctx.cwd)
    decreases |calls|
  {
    if calls == [] then Ok(queue)
    else
      match Declare(ctx, calls[0])
      case Err(e) => Err(e)
      case Ok(t) => Record(ctx, queue + [t], calls[1..])
  }

  /** What each call declares, taken on its own: no call depends on the queue. */
  function Declarations(ctx: Context, calls: seq<Operation>): (r: seq<Result<Todo, Failure>>)
    requires IsAbsolute(ctx.cwd)
    ensures |r| == |calls|
  {
    if calls == [] then [] else [Declare(ctx, calls[0])] + Declarations(ctx, calls[1..])
  }

  /** The todos of a sequence of declarations, or the first error among them. */
  function Collect<T, E>(results: seq<Result<T, E>>): Result<seq<T>, E>
  {
    if results == [] then Ok([])
    else
      match results[0]
      case Err(e) => Err(e)
      case Ok(t) =>
        match Collect(results[1..])
        case Err(e) => Err(e)
        case Ok(ts) => Ok([t] + ts)
  }

  /** The queue a gameplan's calls declare on a fresh recorder, or the error its first throwing call raises. */
  function DeclareAll(ctx: Context, calls: seq<Operation>): Result<seq<Todo>, Failure>
    requires IsAbsolute(ctx.cwd)
  {
    Record(ctx, [], calls)
  }

  // ---------------------------------------------------------------------
  // Containment

  /** What every declared todo satisfies: paths inside their roots, the directory the parent of the target. */
  ghost predicate Confined(ctx: Context, t: Todo)
    requires IsAbsolute(ctx.cwd)
  {
    var source := Root(ctx.cwd, ctx.sourceDirectory);
    var destination := Root(ctx.cwd, ctx.destinationDirectory);
    match t
    case CopyTodo(from, to, dirnameTo) =>
      InsideOf(source, from) && InsideOf(destination, to) && dirnameTo == Dirname(to)
    case TemplateTodo(from, to, dirnameTo, _) =>
      InsideOf(source, from) && InsideOf(destination, to) && dirnameTo == Dirname(to)
    case JsonTodo(to, dirnameTo, _) =>
      InsideOf(destination, to) && dirnameTo == Dirname(to)
    case SpawnTodo(_, _, cwd) =>
      cwd == ctx.destinationDirectory
  }

  /** The parent of the root: the one directory outside the root that a todo may create. */
  function Parent(root: seq<string>): string
  {
    PathString(if root == [] then [] else root[..|root| - 1])
  }

  /**
   * Reads and copies come from inside the source root; copies and writes go
   * inside the destination root; directories are created inside the
   * destination root or are its parent; processes run in the destination.
   */
  ghost predicate EffectConfined(ctx: Context, e: Effect)
    requires IsAbsolute(ctx.cwd)
  {
    var source := Root(ctx.cwd, ctx.sourceDirectory);
    var destination := Root(ctx.cwd, ctx.destinationDirectory);
    match e
    case Mkdir(path) => InsideOf(destination, path) || path == Parent(destination)
    case ReadFile(path) => InsideOf(source, path)
    case CopyFile(from, to) => InsideOf(source, from) && InsideOf(destination, to)
    case WriteFile(path, _, mode) => InsideOf(destination, path) && mode == FileMode
    case SpawnProcess(_, _, cwd) => cwd == ctx.destinationDirectory
  }

  /** The `i`th declaration is what the `i`th call declares. */
  lemma {:induction false} DeclarationAt(ctx: Context, calls: seq<Operation>, i: nat)
    requires IsAbsolute(ctx.cwd) && i < |calls|
    ensures Declarations(ctx, calls)[i] == Declare(ctx, calls[i])
  {
    if i > 0 {
      DeclarationAt(ctx, calls[1..], i - 1);
    }
  }

  /** Collecting succeeds exactly when every declaration succeeds, and then keeps every todo in order. */
  lemma {:induction false} CollectOk<T, E>(results: seq<Result<T, E>>)
    ensures Collect(results).Ok? <==> forall i :: 0 <= i < |results| ==> results[i].Ok?
    ensures Collect(results).Ok? ==>
      |Collect(results).value| == |results| &&
      forall i :: 0 <= i < |results| ==> Collect(results).value[i] == results[i].value
  {
    if results != [] {
      CollectOk(results[1..]);
      assert forall i :: 1 <= i < |results| ==> results[i] == results[1..][i - 1];
    }
  }

  /** The error collected is the first error among the declarations. */
  lemma {:induction false} CollectFirstError<T, E>(results: seq<Result<T, E>>, j: nat)
    requires j < |results| && results[j].Err?
    requires forall i :: 0 <= i < j ==> results[i].Ok?
    ensures Collect(results) == Err(results[j].error)
  {
    if j > 0 {
      CollectFirstError(results[1..], j - 1);
    }
  }

  /**
   * Making the calls one by one on a queue is collecting their independent
   * declarations and appending them to that queue.
   */
  lemma {:induction false} RecordIsCollect(ctx: Context, queue: seq<Todo>, calls: seq<Operation>)
    requires IsAbsolute(ctx.cwd)
    ensures Record(ctx, queue, calls) ==
      match Collect(Declarations(ctx, calls))
      case Ok(ts) => Ok(queue + ts)
      case Err(e) => Err(e)
    decreases |calls|
  {
    if calls == [] {
      assert queue + [] == queue;
    } else {
      var d := Declare(ctx, calls[0]);
      assert Declarations(ctx, calls) == [d] + Declarations(ctx, calls[1..]);
      if d.Ok? {
        RecordIsCollect(ctx, queue + [d.value], calls[1..]);
        var c := Collect(Declarations(ctx, calls[1..]));
        if c.Ok? {
          assert queue + [d.value] + c.value == queue + ([d.value] + c.value);
        }
      }
    }
  }

  /**
   * A gameplan's calls declare a queue exactly when none of them throws; the
   * queue then holds one todo per call, in call order.
   */
  lemma DeclareAllInOrder(ctx: Context, calls: seq<Operation>)
    requires IsAbsolute(ctx.cwd)
    ensures DeclareAll(ctx, calls).Ok? <==> forall i :: 0 <= i < |calls| ==> Declare(ctx, calls[i]).Ok?
    ensures DeclareAll(ctx, calls).Ok? ==>
      |DeclareAll(ctx, calls).value| == |calls| &&
      forall i :: 0 <= i < |calls| ==> DeclareAll(ctx, calls).value[i] == Declare(ctx, calls[i]).value
  {
    var declared := Declarations(ctx, calls);
    RecordIsCollect(ctx, [], calls);
    CollectOk(declared);
    forall i | 0 <= i < |calls| ensures declared[i] == Declare(ctx, calls[i]) {
      DeclarationAt(ctx, calls, i);
    }
    if DeclareAll(ctx, calls).Ok? {
      assert [] + Collect(declared).value == Collect(declared).value;
    }
  }

  /** The error a gameplan's calls raise is the error of the first call that throws. */
  lemma DeclareAllFirstError(ctx: Context, calls: seq<Operation>, j: nat)
    requires IsAbsolute(ctx.cwd)
    requires j < |calls| && Declare(ctx, calls[j]).Err?
    requires forall i :: 0 <= i < j ==> Declare(ctx, calls[i]).Ok?
    ensures DeclareAll(ctx, calls) == Err(Declare(ctx, calls[j]).error)
  {
    var declared := Declarations(ctx, calls);
    RecordIsCollect(ctx, [], calls);
    forall i | 0 <= i <= j ensures declared[i] == Declare(ctx, calls[i]) {
      DeclarationAt(ctx, calls, i);
    }
    CollectFirstError(declared, j);
  }

  // ---------------------------------------------------------------------
  // Running todos

  /**
   * The variables a template sees: every own key whose value is not
   * `undefined`, with the text of that value. A value that is not a plain
   * object offers no variables.
   */
  function TemplateVariables(variables: JsValue): map<string, string>
  {
    match variables
    case Obj(entries) =>
      map k | k in Keys(entries) && Lookup(entries, k) != Undefined :: ToText(Lookup(entries, k))
    case _ => map[]
  }

  /**
   * Issues one effect unless the run has already failed; also yields the
   * effect's output. A failed run stays as it is; otherwise the effect is
   * appended to the run's effects, whatever the environment answers.
   */
  function Issue<W>(env: Environment<W>, r: Run<W>, e: Effect): (next: (Run<W>, string))
    ensures r.failure.Some? ==> next == (r, "")
    ensures r.failure.None? ==> next.0.effects == r.effects + [e]
  {
    if r.failure.Some? then (r, "")
    else
      match env(r.world, e)
      case Err(x) => (Run(r.effects + [e], r.world, Some(x)), "")
      case Ok((w, out)) => (Run(r.effects + [e], w, None), out)
  }

  /** The effects a todo may issue: its own paths, and for a template a write of some text with mode 0o644. */
  predicate MayIssue(t: Todo, e: Effect)
  {
    match t
    case CopyTodo(from, to, dirnameTo) => e == Mkdir(dirnameTo) || e == CopyFile(from, to)
    case TemplateTodo(from, to, dirnameTo, _) =>
      e == Mkdir(dirnameTo) || e == ReadFile(from) || (e.WriteFile? && e.path == to && e.mode == FileMode)
    case JsonTodo(to, dirnameTo, contents) => e == Mkdir(dirnameTo) || e == WriteFile(to, contents, FileMode)
    case SpawnTodo(command, args, cwd) => e == SpawnProcess(command, args, cwd)
  }

  /**
   * The body of one todo, in the order the source awaits its steps. A
   * template reads its variables object from `objects`, as it is when the
   * todo runs. A todo issues only effects on the paths it declared.
   */
  function ExecuteTodo<W>(env: Environment<W>, objects: Ref -> JsValue, world: W, t: Todo): (r: Run<W>)
    ensures forall e :: e in r.effects ==> MayIssue(t, e)
  {
    match t
    case CopyTodo(from, to, dirnameTo) =>
      var (r, _) := Issue(env, Start(world), Mkdir(dirnameTo));
      Issue(env, r, CopyFile(from, to)).0
    case TemplateTodo(from, to, dirnameTo, variables) =>
      var (r, _) := Issue(env, Start(world), Mkdir(dirnameTo));
      var (afterRead, contents) := Issue(env, r, ReadFile(from));
      if afterRead.failure.Some? then afterRead
      else
        (match Template.Render(contents, TemplateVariables(objects(variables)))
         case Err(err) => afterRead.(failure := Some(UndefinedTemplateVariable(err.variableName)))
         case Ok(text) => Issue(env, afterRead, WriteFile(to, text, FileMode)).0)
    case JsonTodo(to, dirnameTo, contents) =>
      var (r, _) := Issue(env, Start(world), Mkdir(dirnameTo));
      Issue(env, r, WriteFile(to, contents, FileMode)).0
    case SpawnTodo(command, args, cwd) =>
      Issue(env, Start(world), SpawnProcess(command, args, cwd)).0
  }

  /**
   * The queue drained from run `r`: each todo in turn until one fails. A run
   * only ever adds effects, so the effects of earlier todos stay in front, in
   * push order; a failed run stays as it is.
   */
  function RunTodos<W>(env: Environment<W>, objects: Ref -> JsValue, r: Run<W>, todos: seq<Todo>): (r': Run<W>)
    ensures |r.effects| <= |r'.effects| && r'.effects[..|r.effects|] == r.effects
    ensures r.failure.Some? ==> r' == r
    decreases |todos|
  {
    if todos == [] || r.failure.Some? then r
    else
      var step := ExecuteTodo(env, objects, r.world, todos[0]);
      var next := Run(r.effects + step.effects, step.world, step.failure);
      assert next.effects[..|r.effects|] == r.effects;
      RunTodos(env, objects, next, todos[1..])
  }

  /**
   * What `runGameplan` does with a gameplan whose `run` behaves as `script`:
   * an error thrown by a call, or by `run` itself, ends the run before any
   * todo; otherwise the queue is drained against the objects as `run` left
   * them. No effect reaches outside the roots.
   */
  function GameplanRun<W>(ctx: Context, script: Script, env: Environment<W>, world: W): (r: Run<W>)
    requires IsAbsolute(ctx.cwd)
    ensures forall e :: e in r.effects ==> EffectConfined(ctx, e)
  {
    DeclareAllConfined(ctx, script.calls);
    match DeclareAll(ctx, script.calls)
    case Err(e) => Run([], world, Some(e))
    case Ok(todos) =>
      if script.rejection.Some? then Run([], world, Some(RunRejected(script.rejection.value)))
      else
        RunTodosConfined(ctx, env, script.settled, Start(world), todos);
        RunTodos(env, script.settled, Start(world), todos)
  }

  /** Draining `a + b` is draining `a`, then draining `b` from where `a` left off. */
  lemma {:induction false} RunTodosAppend<W>(env: Environment<W>, objects: Ref -> JsValue, r: Run<W>, a: seq<Todo>, b: seq<Todo>)
    ensures RunTodos(env, objects, r, a + b) == RunTodos(env, objects, RunTodos(env, objects, r, a), b)
    decreases |a|
  {
    if a != [] && r.failure.None? {
      var step := ExecuteTodo(env, objects, r.world, a[0]);
      assert (a + b)[1..] == a[1..] + b;
      RunTodosAppend(env, objects, Run(r.effects + step.effects, step.world, step.failure), a[1..], b);
    } else if a == [] {
      assert a + b == b;
    }
  }

  /** Once a todo fails, the todos after it issue no effect and the failure is what the run reports. */
  lemma FailureAbortsLaterTodos<W>(env: Environment<W>, objects: Ref -> JsValue, r: Run<W>, a: seq<Todo>, b: seq<Todo>)
    requires RunTodos(env, objects, r, a).failure.Some?
    ensures RunTodos(env, objects, r, a + b) == RunTodos(env, objects, r, a)
  {
    RunTodosAppend(env, objects, r, a, b);
  }

  /** One todo issues only effects confined to the roots. */
  lemma ExecuteTodoConfined<W>(ctx: Context, env: Environment<W>, objects: Ref -> JsValue, world: W, t: Todo)
    requires IsAbsolute(ctx.cwd) && Confined(ctx, t)
    ensures forall e :: e in ExecuteTodo(env, objects, world, t).effects ==> EffectConfined(ctx, e)
  {
    var destination := Root(ctx.cwd, ctx.destinationDirectory);
    if !t.SpawnTodo? {
      DirnameInside(destination, t.to);
    }
    forall e | e in ExecuteTodo(env, objects, world, t).effects ensures EffectConfined(ctx, e) {
      assert MayIssue(t, e);
    }
  }

  /** The directory of a path inside a root is inside it too, or is the root's parent. */
  lemma DirnameInside(root: seq<string>, p: string)
    requires InsideOf(root, p)
    ensures InsideOf(root, Dirname(p)) || Dirname(p) == Parent(root)
  {
    var t :| Normal(t) && p == PathString(t) && Within(root, t);
    DirnameOfPathString(t);
    if |t| > |root| {
      var u := t[..|t| - 1];
      assert u[..|root|] == root;
      assert Normal(u) && Within(root, u);
    } else {
      assert t == root;
    }
  }

  /**
   * Sandbox end to end: draining a queue of confined todos from a confined
   * run issues no effect outside the roots.
   */
  lemma {:induction false} RunTodosConfined<W>(ctx: Context, env: Environment<W>, objects: Ref -> JsValue, r: Run<W>, todos: seq<Todo>)
    requires IsAbsolute(ctx.cwd)
    requires forall i :: 0 <= i < |todos| ==> Confined(ctx, todos[i])
    requires forall e :: e in r.effects ==> EffectConfined(ctx, e)
    ensures forall e :: e in RunTodos(env, objects, r, todos).effects ==> EffectConfined(ctx, e)
    decreases |todos|
  {
    if todos != [] && r.failure.None? {
      var step := ExecuteTodo(env, objects, r.world, todos[0]);
      ExecuteTodoConfined(ctx, env, objects, r.world, todos[0]);
      RunTodosConfined(ctx, env, objects, Run(r.effects + step.effects, step.world, step.failure), todos[1..]);
    }
  }

  /** Every todo a gameplan's calls declare is confined to the roots. */
  lemma DeclareAllConfined(ctx: Context, calls: seq<Operation>)
    requires IsAbsolute(ctx.cwd)
    ensures DeclareAll(ctx, calls).Ok? ==>
      forall i :: 0 <= i < |DeclareAll(ctx, calls).value| ==> Confined(ctx, DeclareAll(ctx, calls).value[i])
  {
    DeclareAllInOrder(ctx, calls);
    if DeclareAll(ctx, calls).Ok? {
      var todos := DeclareAll(ctx, calls).value;
      forall i | 0 <= i < |todos| ensures Confined(ctx, todos[i]) {
        assert todos[i] == Declare(ctx, calls[i]).value;
      }
    }
  }

  /** A call that throws while the gameplan runs means no todo runs at all: nothing is written. */
  lemma DeclarationErrorRunsNothing<W>(ctx: Context, script: Script, env: Environment<W>, world: W, j: nat)
    requires IsAbsolute(ctx.cwd)
    requires j < |script.calls| && Declare(ctx, script.calls[j]).Err?
    requires forall i :: 0 <= i < j ==> Declare(ctx, script.calls[i]).Ok?
    ensures GameplanRun(ctx, script, env, world) == Run([], world, Some(Declare(ctx, script.calls[j]).error))
  {
    DeclareAllFirstError(ctx, script.calls, j);
  }

  /**
   * When `gameplan.run` throws or rejects on its own after calls that all
   * succeeded, the queued todos are abandoned: nothing is written and the
   * run ends with that reason.
   */
  lemma RejectionRunsNothing<W>(ctx: Context, script: Script, env: Environment<W>, world: W)
    requires IsAbsolute(ctx.cwd) && script.rejection.Some?
    requires forall i :: 0 <= i < |script.calls| ==> Declare(ctx, script.calls[i]).Ok?
    ensures GameplanRun(ctx, script, env, world) == Run([], world, Some(RunRejected(script.rejection.value)))
  {
    DeclareAllInOrder(ctx, script.calls);
  }

  /**
   * A template todo whose file was read writes the rendered text, with mode
   * 0o644, only when every placeholder is defined in the variables object as
   * it is when the todo runs; otherwise it fails with
   * `UndefinedTemplateVariable` for the first undefined name and writes nothing.
   */
  lemma TemplateTodoWritesRenderedText<W>(env: Environment<W>, objects: Ref -> JsValue, world: W, from: string, to: string,
                                          dirnameTo: string, variables: Ref, w1: W, o1: string, w2: W, contents: string)
    requires env(world, Mkdir(dirnameTo)) == Ok((w1, o1))
    requires env(w1, ReadFile(from)) == Ok((w2, contents))
    ensures var r := ExecuteTodo(env, objects, world, TemplateTodo(from, to, dirnameTo, variables));
      match Template.Fill(Template.Lex(contents), TemplateVariables(objects(variables)))
      case Ok(text) =>
        r.effects == [Mkdir(dirnameTo), ReadFile(from), WriteFile(to, text, FileMode)] &&
        (r.failure.None? <==> env(w2, WriteFile(to, text, FileMode)).Ok?)
      case Err(err) =>
        r == Run([Mkdir(dirnameTo), ReadFile(from)], w2, Some(UndefinedTemplateVariable(err.variableName)))
  {
  }

  /**
   * The variables are read when the todo runs: a template declared while its
   * object was still empty writes `x` for `{{name}}` once the gameplan has set
   * `name` to `'x'` on that object.
   */
  lemma TemplateSeesLaterAssignment<W>(ctx: Context, fromPath: JsValue, toPath: JsValue, ref: Ref,
                                       objects: Ref -> JsValue, env: Environment<W>, world: W, w1: W, o1: string, w2: W)
    requires IsAbsolute(ctx.cwd) && DeclareTemplate(ctx, fromPath, toPath, Obj([]), ref).Ok?
    requires objects(ref) == Obj([("name", Str("x"))])
    requires var t := DeclareTemplate(ctx, fromPath, toPath, Obj([]), ref).value;
      env(world, Mkdir(t.dirnameTo)) == Ok((w1, o1)) && env(w1, ReadFile(t.from)) == Ok((w2, "{{name}}"))
    ensures var t := DeclareTemplate(ctx, fromPath, toPath, Obj([]), ref).value;
      ExecuteTodo(env, objects, world, t).effects == [Mkdir(t.dirnameTo), ReadFile(t.from), WriteFile(t.to, "x", FileMode)]
  {
    var t := DeclareTemplate(ctx, fromPath, toPath, Obj([]), ref).value;
    assert t == TemplateTodo(t.from, t.to, t.dirnameTo, ref);
    AssignedNameRendered(env, objects, world, t.from, t.to, t.dirnameTo, ref, w1, o1, w2);
  }

  lemma AssignedNameRendered<W>(env: Environment<W>, objects: Ref -> JsValue, world: W, from: string, to: string,
                                dirnameTo: string, ref: Ref, w1: W, o1: string, w2: W)
    requires objects(ref) == Obj([("name", Str("x"))])
    requires env(world, Mkdir(dirnameTo)) == Ok((w1, o1)) && env(w1, ReadFile(from)) == Ok((w2, "{{name}}"))
    ensures ExecuteTodo(env, objects, world, TemplateTodo(from, to, dirnameTo, ref)).effects ==
      [Mkdir(dirnameTo), ReadFile(from), WriteFile(to, "x", FileMode)]
  {
    var entries := [("name", Str("x"))];
    var vars := TemplateVariables(objects(ref));
    DefinedVariables(entries, "name");
    assert Lookup(entries, "name") == Str("x");
    assert vars["name"] == "x";
    Template.SinglePlaceholder("name", vars);
    assert "{{" + "name" + "}}" == "{{name}}";
    TemplateTodoWritesRenderedText(env, objects, world, from, to, dirnameTo, ref, w1, o1, w2, "{{name}}");
  }

  /** Only a strictly `undefined` value hides a variable: `''`, `false`, `0` and `null` are substituted as text. */
  lemma DefinedVariables(entries: Entries<JsValue>, name: string)
    ensures name in TemplateVariables(Obj(entries)) <==> Lookup(entries, name) != Undefined
    ensures Lookup(entries, name) == Str("") ==> TemplateVariables(Obj(entries))[name] == ""
    ensures Lookup(entries, name) == Bool(false) ==> TemplateVariables(Obj(entries))[name] == "false"
    ensures Lookup(entries, name) == Null ==> TemplateVariables(Obj(entries))[name] == "null"
  {
    if Lookup(entries, name) != Undefined {
      assert name in Keys(entries);
    }
  }

  // ---------------------------------------------------------------------
  // The recorder

  /** The `operations` object handed to the gameplan, with the queue it fills. */
  class Recorder {
    const ctx: Context
    var todos: seq<Todo>

    /** The working directory is absolute and every queued todo is confined to its roots. */
    ghost predicate Valid()
      reads this
    {
      IsAbsolute(ctx.cwd) && forall i :: 0 <= i < |todos| ==> Confined(ctx, todos[i])
    }

    constructor (ctx: Context)
      requires IsAbsolute(ctx.cwd)
      ensures this.ctx == ctx && todos == [] && Valid()
    {
      this.ctx := ctx;
      todos := [];
    }

    /** Appends a declared todo, or throws its error and leaves the queue as it was. */
    method Push(declared: Result<Todo, Failure>) returns (outcome: Outcome<Failure>)
      requires Valid() && (declared.Ok? ==> Confined(ctx, declared.value))
      modifies this
      ensures Valid()
      ensures declared.Ok? ==> outcome == Pass && todos == old(todos) + [declared.value]
      ensures declared.Err? ==> outcome == Fail(declared.error) && todos == old(todos)
    {
      if declared.Ok? {
        todos := todos + [declared.value];
        outcome := Pass;
      } else {
        outcome := Fail(declared.error);
      }
    }

    /** `operations.copy(fromPath, toPath)`. */
    method Copy(fromPath: JsValue, toPath: JsValue) returns (outcome: Outcome<Failure>)
      requires Valid()
      modifies this
      ensures Valid()
      ensures var d := DeclareCopy(ctx, fromPath, toPath);
        && (d.Ok? ==> outcome == Pass && todos == old(todos) + [d.value])
        && (d.Err? ==> outcome == Fail(d.error) && todos == old(todos))
    {
      outcome := Push(DeclareCopy(ctx, fromPath, toPath));
    }

    /** `operations.template(fromPath, toPath, variables)`, `variables` being the object `variablesRef`. */
    method Template(fromPath: JsValue, toPath: JsValue, variables: JsValue, variablesRef: Ref) returns (outcome: Outcome<Failure>)
      requires Valid()
      modifies this
      ensures Valid()
      ensures var d := DeclareTemplate(ctx, fromPath, toPath, variables, variablesRef);
        && (d.Ok? ==> outcome == Pass && todos == old(todos) + [d.value])
        && (d.Err? ==> outcome == Fail(d.error) && todos == old(todos))
    {
      outcome := Push(DeclareTemplate(ctx, fromPath, toPath, variables, variablesRef));
    }

    /** `operations.json(fromObject, toPath)`. */
    method Json(fromObject: JsValue, toPath: JsValue) returns (outcome: Outcome<Failure>)
      requires Valid()
      modifies this
      ensures Valid()
      ensures var d := DeclareJson(ctx, fromObject, toPath);
        && (d.Ok? ==> outcome == Pass && todos == old(todos) + [d.value])
        && (d.Err? ==> outcome == Fail(d.error) && todos == old(todos))
    {
      outcome := Push(DeclareJson(ctx, fromObject, toPath));
    }

    /** `operations.spawn(command, ...args)`: always queued. */
    method Spawn(command: string, args: seq<JsValue>)
      requires Valid()
      modifies this
      ensures Valid()
      ensures todos == old(todos) + [DeclareSpawn(ctx, command, args)]
    {
      todos := todos + [DeclareSpawn(ctx, command, args)];
    }

    /** Dispatches one call of the gameplan to the matching operation. */
    method Perform(call: Operation) returns (outcome: Outcome<Failure>)
      requires Valid()
      modifies this
      ensures Valid()
      ensures var d := Declare(ctx, call);
        && (d.Ok? ==> outcome == Pass && todos == old(todos) + [d.value])
        && (d.Err? ==> outcome == Fail(d.error) && todos == old(todos))
    {
      match call
      case CopyCall(fromPath, toPath) =>
        outcome := Copy(fromPath, toPath);
      case TemplateCall(fromPath, toPath, variables, variablesRef) =>
        outcome := Template(fromPath, toPath, variables, variablesRef);
      case JsonCall(fromObject, toPath) =>
        outcome := Json(fromObject, toPath);
      case SpawnCall(command, args) =>
        Spawn(command, args);
        outcome := Pass;
    }

    /**
     * The `todos.reduce` chain: each todo awaited in push order, stopping at
     * the first failure, with templates reading `objects`; since every queued
     * todo is confined, no effect reaches outside the roots.
     */
    method Drain<W>(env: Environment<W>, objects: Ref -> JsValue, world: W) returns (run: Run<W>)
      requires Valid()
      ensures run == RunTodos(env, objects, Start(world), todos)
      ensures forall e :: e in run.effects ==> EffectConfined(ctx, e)
    {
      run := Start(world);
      var i := 0;
      while i < |todos| && run.failure.None?
        invariant 0 <= i <= |todos|
        invariant RunTodos(env, objects, run, todos[i..]) == RunTodos(env, objects, Start(world), todos)
      {
        var step := ExecuteTodo(env, objects, run.world, todos[i]);
        assert todos[i..][1..] == todos[i + 1..];
        run := Run(run.effects + step.effects, step.world, step.failure);
        i := i + 1;
      }
      RunTodosConfined(ctx, env, objects, Start(world), todos);
    }
  }

  /**
   * `runGameplan`: a fresh recorder, the gameplan's calls in order (the first
   * that throws ends the run with its error), then, unless `run` itself
   * rejected, the queue drained.
   */
  method RunGameplan<W>(ctx: Context, script: Script, env: Environment<W>, world: W) returns (run: Run<W>)
    requires IsAbsolute(ctx.cwd)
    ensures run == GameplanRun(ctx, script, env, world)
  {
    var recorder := new Recorder(ctx);
    var i := 0;
    while i < |script.calls|
      invariant 0 <= i <= |script.calls|
      invariant recorder.Valid() && recorder.ctx == ctx
      invariant Record(ctx, recorder.todos, script.calls[i..]) == DeclareAll(ctx, script.calls)
    {
      var outcome := recorder.Perform(script.calls[i]);
      if outcome.Fail? {
        return Run([], world, Some(outcome.error));
      }
      assert script.calls[i..][1..] == script.calls[i + 1..];
      i := i + 1;
    }
    if script.rejection.Some? {
      return Run([], world, Some(RunRejected(script.rejection.value)));
    }
    run := recorder.Drain(env, script.settled, world);
  }
}
