/**
 * The option pipeline of src/index.js: the option-definition schema
 * (`InvalidOptionDefinitions.OPTIONS_DEFINITION_SCHEMA` and `assert`), the
 * projection into the argument parser's configuration and back
 * (`parseCommandLineArguments`), and the prompt questions with the merge of
 * the answers (`promptForOptions`).
 */
module Options {
  import opened Wrappers
  import opened JsObject

  // ---------------------------------------------------------------------
  // The schema

  /** The only properties a definition may have. */
  const AllowedProperties: seq<string> := ["type", "description", "prompt", "choices", "default"]

  /** Which rule of the schema a definition breaks. */
  datatype Rule =
    | RootNotObject
    | DefinitionNotObject
    | MissingProperty(property: string)
    | AdditionalProperty(property: string)
    | TypeNotAllowed
    | NotAString(property: string)
    | ChoicesNotStringArray

  /** One schema violation, naming the option it concerns (empty for the root). */
  datatype Violation = Violation(option: string, rule: Rule)

  /** `InvalidOptionDefinitions`: carries every violation found. */
  datatype InvalidOptionDefinitions = InvalidOptionDefinitions(errors: seq<Violation>)

  /** A property counts as present when its value is not `undefined`. */
  predicate Present(entries: Entries<JsValue>, property: string)
  {
    Lookup(entries, property) != Undefined
  }

  predicate IsStringArray(v: JsValue)
  {
    v.Arr? && forall i :: 0 <= i < |v.items| ==> v.items[i].Str?
  }

  /** The schema for one option: an object with `type` and `default`, no other keys, typed optional keys. */
  predicate ValidDefinition(v: JsValue)
  {
    && v.Obj?
    && Present(v.entries, "type")
    && Present(v.entries, "default")
    && (forall i :: 0 <= i < |v.entries| ==> v.entries[i].0 in AllowedProperties)
    && Lookup(v.entries, "type") in [Str("string"), Str("boolean")]
    && (Present(v.entries, "description") ==> Lookup(v.entries, "description").Str?)
    && (Present(v.entries, "prompt") ==> Lookup(v.entries, "prompt").Str?)
    && (Present(v.entries, "choices") ==> IsStringArray(Lookup(v.entries, "choices")))
  }

  /** The schema: an object each of whose values is a valid definition. */
  predicate ValidDefinitions(v: JsValue)
  {
    v.Obj? && forall i :: 0 <= i < |v.entries| ==> ValidDefinition(v.entries[i].1)
  }

  function Check(ok: bool, rule: Rule): (r: seq<Rule>)
    ensures r == [] <==> ok
  {
    if ok then [] else [rule]
  }

  /** One `AdditionalProperty` rule per key outside the allowed ones. */
  function ExtraKeys(entries: Entries<JsValue>): (r: seq<Rule>)
    ensures r == [] <==> forall i :: 0 <= i < |entries| ==> entries[i].0 in AllowedProperties
  {
    if entries == [] then []
    else
      var rest := ExtraKeys(entries[1..]);
      assert forall i :: 1 <= i < |entries| ==> entries[i] == entries[1..][i - 1];
      Check(entries[0].0 in AllowedProperties, AdditionalProperty(entries[0].0)) + rest
  }

  /** Every rule a definition breaks. */
  function BrokenRules(v: JsValue): seq<Rule>
  {
    if !v.Obj? then [DefinitionNotObject]
    else
      var e := v.entries;
      Check(Present(e, "type"), MissingProperty("type"))
      + Check(Present(e, "default"), MissingProperty("default"))
      + ExtraKeys(e)
      + Check(!Present(e, "type") || Lookup(e, "type") in [Str("string"), Str("boolean")], TypeNotAllowed)
      + Check(!Present(e, "description") || Lookup(e, "description").Str?, NotAString("description"))
      + Check(!Present(e, "prompt") || Lookup(e, "prompt").Str?, NotAString("prompt"))
      + Check(!Present(e, "choices") || IsStringArray(Lookup(e, "choices")), ChoicesNotStringArray)
  }

  /** The violations of the definition of `option`, each naming that option. */
  function DefinitionViolations(option: string, v: JsValue): (r: seq<Violation>)
    ensures |r| == |BrokenRules(v)|
    ensures forall i :: 0 <= i < |r| ==> r[i] == Violation(option, BrokenRules(v)[i])
  {
    var rules := BrokenRules(v);
    seq(|rules|, i requires 0 <= i < |rules| => Violation(option, rules[i]))
  }

  function EntriesViolations(entries: Entries<JsValue>): seq<Violation>
  {
    if entries == [] then []
    else DefinitionViolations(entries[0].0, entries[0].1) + EntriesViolations(entries[1..])
  }

  /**
   * All violations of the schema, option by option, as the validator reports
   * them with `allErrors`. None is reported exactly when the definitions
   * satisfy the schema.
   */
  function Violations(v: JsValue): (r: seq<Violation>)
    ensures r == [] <==> ValidDefinitions(v)
  {
    if !v.Obj? then [Violation("", RootNotObject)]
    else
      EntriesViolationsEmpty(v.entries);
      EntriesViolations(v.entries)
  }

  lemma BrokenRulesEmpty(v: JsValue)
    ensures BrokenRules(v) == [] <==> ValidDefinition(v)
  {
    if v.Obj? {
      var _ := ExtraKeys(v.entries);
    }
  }

  lemma {:induction false} EntriesViolationsEmpty(entries: Entries<JsValue>)
    ensures EntriesViolations(entries) == [] <==> forall i :: 0 <= i < |entries| ==> ValidDefinition(entries[i].1)
  {
    if entries != [] {
      var head := entries[0].1;
      var tail := entries[1..];
      var d := DefinitionViolations(entries[0].0, head);
      BrokenRulesEmpty(head);
      EntriesViolationsEmpty(tail);
      assert EntriesViolations(entries) == d + EntriesViolations(tail);
      assert d == [] <==> ValidDefinition(head);
      if EntriesViolations(entries) == [] {
        forall i | 0 <= i < |entries| ensures ValidDefinition(entries[i].1) {
          if i > 0 {
            assert entries[i] == tail[i - 1];
          }
        }
      }
      if forall i :: 0 <= i < |entries| ==> ValidDefinition(entries[i].1) {
        assert ValidDefinition(entries[0].1);
        forall i | 0 <= i < |tail| ensures ValidDefinition(tail[i].1) {
          assert tail[i] == entries[i + 1];
        }
      }
    }
  }

  lemma {:induction false} EveryInvalidOptionReported(entries: Entries<JsValue>, i: nat)
    requires i < |entries| && !ValidDefinition(entries[i].1)
    ensures exists x :: x in EntriesViolations(entries) && x.option == entries[i].0
  {
    var d := DefinitionViolations(entries[0].0, entries[0].1);
    var rest := EntriesViolations(entries[1..]);
    assert EntriesViolations(entries) == d + rest;
    if i == 0 {
      BrokenRulesEmpty(entries[0].1);
      assert d[0] in d + rest;
    } else {
      assert entries[1..][i - 1] == entries[i];
      EveryInvalidOptionReported(entries[1..], i - 1);
      var x :| x in rest && x.option == entries[i].0;
      ReportedInTail(x, d, rest);
    }
  }

  lemma ReportedInTail(x: Violation, d: seq<Violation>, rest: seq<Violation>)
    requires x in rest
    ensures x in d + rest
  {
  }

  // ---------------------------------------------------------------------
  // Validated definitions

  datatype OptionType = StringType | BooleanType

  /** A definition that satisfies the schema. */
  datatype Definition = Definition(
    optionType: OptionType,
    description: Option<string>,
    prompt: Option<string>,
    choices: Option<seq<string>>,
    default: JsValue)

  function StringProperty(entries: Entries<JsValue>, property: string): Option<string>
  {
    match Lookup(entries, property)
    case Str(s) => Some(s)
    case _ => None
  }

  function ToDefinition(v: JsValue): (d: Definition)
    requires ValidDefinition(v)
  {
    var e := v.entries;
    Definition(
      if Lookup(e, "type") == Str("string") then StringType else BooleanType,
      StringProperty(e, "description"),
      StringProperty(e, "prompt"),
      if Present(e, "choices") then Some(Texts(Lookup(e, "choices").items)) else None,
      Lookup(e, "default"))
  }

  /**
   * `InvalidOptionDefinitions.assert(value)`: the definitions when the value
   * satisfies the schema, otherwise `InvalidOptionDefinitions` with every violation.
   */
  function AssertDefinitions(v: JsValue): (r: Result<Entries<Definition>, InvalidOptionDefinitions>)
    ensures r.Ok? <==> ValidDefinitions(v)
    ensures r.Ok? ==> Keys(r.value) == Keys(v.entries)
    ensures r.Err? ==> r.error.errors == Violations(v) && r.error.errors != []
  {
    if ValidDefinitions(v) then
      Ok(seq(|v.entries|, i requires 0 <= i < |v.entries| => (v.entries[i].0, ToDefinition(v.entries[i].1))))
    else Err(InvalidOptionDefinitions(Violations(v)))
  }

  // ---------------------------------------------------------------------
  // parseCommandLineArguments

  /** The argument parser's configuration for one option. `choices` is set only when the definition has them. */
  datatype ParserOption = ParserOption(
    optionType: OptionType,
    description: Option<string>,
    default: JsValue,
    choices: Option<seq<string>>)

  /** `if (value.choices)`: an array is always truthy, even an empty one; only an absent value is falsy. */
  predicate ChoicesTruthy(choices: Option<seq<string>>)
  {
    choices.Some?
  }

  function ToParserOption(d: Definition, key: string, defs: Entries<Definition>): ParserOption
  {
    ParserOption(d.optionType, d.description, d.default, if ChoicesTruthy(d.choices) then d.choices else None)
  }

  /** The first `objectMap` of `parseCommandLineArguments`: definitions projected to parser options. */
  function ParserConfig(defs: Entries<Definition>): Entries<ParserOption>
  {
    MapValues(defs, ToParserOption)
  }

  function ParsedValue(parsed: Entries<JsValue>): (Definition, string, Entries<Definition>) -> JsValue
  {
    (d: Definition, key: string, defs: Entries<Definition>) => Lookup(parsed, key)
  }

  /**
   * `parseCommandLineArguments`: given what the parser returned for the
   * configuration, the value of each defined key and nothing else.
   */
  function ParseCommandLineArguments(defs: Entries<Definition>, parsed: Entries<JsValue>): (r: Entries<JsValue>)
    ensures Keys(r) == Keys(defs)
    ensures forall i :: 0 <= i < |defs| ==> r[i].1 == Lookup(parsed, defs[i].0)
  {
    MapValues(defs, ParsedValue(parsed))
  }

  /** The parser configuration has one entry per definition, carrying its type, description, default and choices. */
  lemma ParserConfigFollowsDefinitions(defs: Entries<Definition>, key: string)
    requires DistinctKeys(defs)
    ensures Keys(ParserConfig(defs)) == Keys(defs)
    ensures match Get(defs, key)
            case Some(d) =>
              Get(ParserConfig(defs), key) == Some(ParserOption(d.optionType, d.description, d.default, d.choices))
            case None => Get(ParserConfig(defs), key).None?
  {
    MapValuesEntries(defs, ToParserOption, key);
  }

  /** The parsed options are exactly the defined keys, in definition order, with the parser's value for each. */
  lemma ParsedKeysAreDefinedKeys(defs: Entries<Definition>, parsed: Entries<JsValue>, key: string)
    requires DistinctKeys(defs)
    ensures Keys(ParseCommandLineArguments(defs, parsed)) == Keys(defs)
    ensures DistinctKeys(ParseCommandLineArguments(defs, parsed))
    ensures Get(ParseCommandLineArguments(defs, parsed), key) ==
      if key in Keys(defs) then Some(Lookup(parsed, key)) else None
  {
    MapValuesEntries(defs, ParsedValue(parsed), key);
  }

  /**
   * What the argument parser promises for a configuration: every configured
   * key holds the flag given on the command line, or the default otherwise.
   */
  predicate ParserContract(config: Entries<ParserOption>, flags: Entries<JsValue>, parsed: Entries<JsValue>)
  {
    forall i :: 0 <= i < |config| ==>
      Lookup(parsed, config[i].0) == if config[i].0 in Keys(flags) then Lookup(flags, config[i].0) else config[i].1.default
  }

  /** With a parser that keeps its contract, an option absent from the command line takes its definition's default. */
  lemma ParsedFallsBackToDefault(defs: Entries<Definition>, flags: Entries<JsValue>, parsed: Entries<JsValue>, i: nat)
    requires DistinctKeys(defs) && i < |defs|
    requires ParserContract(ParserConfig(defs), flags, parsed)
    ensures Get(ParseCommandLineArguments(defs, parsed), defs[i].0) ==
      Some(if defs[i].0 in Keys(flags) then Lookup(flags, defs[i].0) else defs[i].1.default)
  {
    var key := defs[i].0;
    ParsedKeysAreDefinedKeys(defs, parsed, key);
    var config := ParserConfig(defs);
    assert config[i] == (key, ToParserOption(defs[i].1, key, defs));
    assert Lookup(parsed, config[i].0) == if key in Keys(flags) then Lookup(flags, key) else config[i].1.default;
  }

  // ---------------------------------------------------------------------
  // promptForOptions

  datatype QuestionType = ListQuestion | StringQuestion | ConfirmQuestion

  /** A prompt question: `{ type, name, default, choices, message }`. */
  datatype Question = Question(
    questionType: QuestionType,
    name: string,
    default: JsValue,
    choices: Option<seq<string>>,
    message: string)

  /** `a || b` on an optional string: `undefined` and the empty string are falsy. */
  function Or(a: Option<string>, b: string): string
  {
    if a.Some? && a.value != "" then a.value else b
  }

  /** `value.prompt || value.description || `${name}:``. */
  function Message(name: string, d: Definition): string
  {
    Or(d.prompt, Or(d.description, name + ":"))
  }

  /** The question for one definition, seeded with the current value of the option. */
  function ToQuestion(name: string, d: Definition, defaults: Entries<JsValue>): Question
  {
    var questionType :=
      match d.optionType
      case StringType => if ChoicesTruthy(d.choices) then ListQuestion else StringQuestion
      case BooleanType => ConfirmQuestion;
    Question(questionType, name, Lookup(defaults, name), d.choices, Message(name, d))
  }

  /**
   * `Object.entries(optionDefinitions).map(...)`: one question per
   * definition, in definition order, named by its key, seeded with the current
   * value and offering the definition's choices.
   */
  function Questions(defs: Entries<Definition>, defaults: Entries<JsValue>): (r: seq<Question>)
    ensures |r| == |defs|
    ensures forall i :: 0 <= i < |defs| ==>
      r[i].name == defs[i].0 && r[i].default == Lookup(defaults, defs[i].0) && r[i].choices == defs[i].1.choices
  {
    seq(|defs|, i requires 0 <= i < |defs| => ToQuestion(defs[i].0, defs[i].1, defaults))
  }

  /**
   * `Object.assign({}, defaults, answers)`, where `answers` is what the prompt
   * returned for the questions: an answered key takes the answer, any other
   * key keeps its prior value, and no other key appears.
   */
  function PromptForOptions(defs: Entries<Definition>, defaults: Entries<JsValue>, answers: Entries<JsValue>): (r: Entries<JsValue>)
    ensures forall k :: k in Keys(r) <==> k in Keys(defaults) || k in Keys(answers)
    ensures DistinctKeys(defaults) && DistinctKeys(answers) ==>
      forall k :: Get(r, k) == if k in Keys(answers) then Get(answers, k) else Get(defaults, k)
  {
    AssignGetAll([], defaults);
    AssignGetAll(Assign([], defaults), answers);
    Assign(Assign([], defaults), answers)
  }

  /**
   * One question per definition, in definition order: a string option with
   * choices is a list, without them free text, a boolean a confirmation; the
   * default is the current value; the message is never empty.
   */
  lemma QuestionsFollowDefinitions(defs: Entries<Definition>, defaults: Entries<JsValue>, i: nat)
    requires i < |defs|
    ensures |Questions(defs, defaults)| == |defs|
    ensures var q := Questions(defs, defaults)[i];
      var d := defs[i].1;
      && q.name == defs[i].0
      && (q.questionType == ListQuestion <==> d.optionType == StringType && d.choices.Some?)
      && (q.questionType == ConfirmQuestion <==> d.optionType == BooleanType)
      && q.default == Lookup(defaults, defs[i].0)
      && q.choices == d.choices
      && q.message != ""
      && (d.prompt.Some? && d.prompt.value != "" ==> q.message == d.prompt.value)
      && ((d.prompt.None? || d.prompt.value == "") && d.description.Some? && d.description.value != "" ==>
            q.message == d.description.value)
      && ((d.prompt.None? || d.prompt.value == "") && (d.description.None? || d.description.value == "") ==>
            q.message == defs[i].0 + ":")
      && (q.message == defs[i].0 + ":" <==>
            (d.prompt.None? || d.prompt.value == "" || d.prompt.value == defs[i].0 + ":") &&
            (d.description.None? || d.description.value == "" || d.description.value == defs[i].0 + ":" ||
             (d.prompt.Some? && d.prompt.value != "")))
  {
  }

  /** Object.assign onto a target with distinct keys keeps them distinct. */
  lemma {:induction false} AssignDistinct<V>(target: Entries<V>, source: Entries<V>)
    requires DistinctKeys(target)
    ensures DistinctKeys(Assign(target, source))
    decreases |source|
  {
    if source != [] {
      SetDistinct(target, source[0].0, source[0].1);
      AssignDistinct(Set(target, source[0].0, source[0].1), source[1..]);
    }
  }

  /** After Object.assign, a key of the source reads the source's value; any other key reads as before. */
  lemma {:induction false} AssignGet<V>(target: Entries<V>, source: Entries<V>, key: string)
    requires DistinctKeys(source)
    ensures Get(Assign(target, source), key) == if key in Keys(source) then Get(source, key) else Get(target, key)
    decreases |source|
  {
    if source != [] {
      var k := source[0].0;
      var tail := source[1..];
      var t' := Set(target, k, source[0].1);
      assert DistinctKeys(tail) by {
        forall i, j | 0 <= i < j < |tail| ensures tail[i].0 != tail[j].0 {
          assert tail[i] == source[i + 1] && tail[j] == source[j + 1];
        }
      }
      AssignGet(t', tail, key);
      SetGet(target, k, source[0].1, key);
      assert Keys(source) == [k] + Keys(tail);
      assert Assign(target, source) == Assign(t', tail);
      if key == k {
        assert key !in Keys(tail) by {
          forall j | 0 <= j < |tail| ensures Keys(tail)[j] != k {
            assert tail[j] == source[j + 1];
          }
        }
        assert Get(source, key) == Some(source[0].1);
      } else {
        assert Get(source, key) == Get(tail, key);
      }
    }
  }

  /** `AssignGet` for every key at once. */
  lemma AssignGetAll<V>(target: Entries<V>, source: Entries<V>)
    ensures DistinctKeys(source) ==>
      forall k :: Get(Assign(target, source), k) == if k in Keys(source) then Get(source, k) else Get(target, k)
  {
    if DistinctKeys(source) {
      forall k {
        AssignGet(target, source, k);
      }
    }
  }

  /**
   * The prompted options are the defaults overridden by the answers: an
   * answered key takes the answer, any other key keeps its prior value; the
   * defaults' keys keep their order and answers add only their own keys.
   */
  lemma AnswersOverrideDefaults(defs: Entries<Definition>, defaults: Entries<JsValue>, answers: Entries<JsValue>, key: string)
    requires DistinctKeys(defaults) && DistinctKeys(answers)
    ensures var r := PromptForOptions(defs, defaults, answers);
      && Get(r, key) == (if key in Keys(answers) then Get(answers, key) else Get(defaults, key))
      && DistinctKeys(r)
      && |r| >= |defaults|
      && Keys(r)[..|defaults|] == Keys(defaults)
      && (key in Keys(r) <==> key in Keys(defaults) || key in Keys(answers))
  {
    AssignFromEmpty(defaults);
    AssignDistinct(defaults, answers);
  }

  /** `Object.assign({}, o)` copies `o` entry by entry. */
  lemma AssignFromEmpty<V>(o: Entries<V>)
    requires DistinctKeys(o)
    ensures Assign([], o) == o
  {
    AssignAppends([], o);
  }

  lemma {:induction false} AssignAppends<V>(target: Entries<V>, source: Entries<V>)
    requires DistinctKeys(target + source)
    ensures Assign(target, source) == target + source
    decreases |source|
  {
    if source != [] {
      var t' := target + [source[0]];
      FirstSourceKeyIsNew(target, source);
      MoveFirst(target, source);
      AssignAppends(t', source[1..]);
    }
  }

  lemma MoveFirst<V>(target: Entries<V>, source: Entries<V>)
    requires source != []
    ensures (target + [source[0]]) + source[1..] == target + source
  {
    assert [source[0]] + source[1..] == source;
  }

  lemma FirstSourceKeyIsNew<V>(target: Entries<V>, source: Entries<V>)
    requires source != [] && DistinctKeys(target + source)
    ensures Set(target, source[0].0, source[0].1) == target + [source[0]]
  {
    var both := target + source;
    assert source[0].0 !in Keys(target) by {
      forall j | 0 <= j < |target| ensures Keys(target)[j] != source[0].0 {
        assert both[j] == target[j] && both[|target|] == source[0];
      }
    }
  }

  /** When every answer names a defined option, the final options have exactly the defined keys. */
  lemma PromptKeepsDefinedKeys(defs: Entries<Definition>, parsed: Entries<JsValue>, answers: Entries<JsValue>)
    requires DistinctKeys(defs) && DistinctKeys(answers)
    requires forall k :: k in Keys(answers) ==> k in Keys(defs)
    ensures var defaults := ParseCommandLineArguments(defs, parsed);
      Keys(PromptForOptions(defs, defaults, answers)) == Keys(defs)
  {
    var defaults := ParseCommandLineArguments(defs, parsed);
    ParsedKeysAreDefinedKeys(defs, parsed, "");
    AssignFromEmpty(defaults);
    AssignKeysUnchanged(defaults, answers);
  }

  /** Assigning only existing keys leaves the key sequence unchanged. */
  lemma {:induction false} AssignKeysUnchanged<V>(target: Entries<V>, source: Entries<V>)
    requires forall k :: k in Keys(source) ==> k in Keys(target)
    ensures Keys(Assign(target, source)) == Keys(target)
    decreases |source|
  {
    if source != [] {
      var (k, v) := source[0];
      assert k in Keys(source);
      assert forall k' :: k' in Keys(source[1..]) ==> k' in Keys(source) by {
        assert Keys(source) == [k] + Keys(source[1..]);
      }
      AssignKeysUnchanged(Set(target, k, v), source[1..]);
    }
  }

  /**
   * A single string option with choices: one list question with those choices
   * and the current value as default; answering `b` gives `{choice: 'b'}`.
   */
  lemma SingleChoiceScenario(name: string)
    ensures var d := Definition(StringType, None, None, Some(["a", "b"]), Str("a"));
      var defs := [(name, d)];
      var defaults := [(name, Str("a"))];
      && Questions(defs, defaults) == [Question(ListQuestion, name, Str("a"), Some(["a", "b"]), name + ":")]
      && PromptForOptions(defs, defaults, [(name, Str("b"))]) == [(name, Str("b"))]
  {
    var d := Definition(StringType, None, None, Some(["a", "b"]), Str("a"));
    var defaults := [(name, Str("a"))];
    var q := Questions([(name, d)], defaults);
    assert Lookup(defaults, name) == Str("a");
    assert q[0] == Question(ListQuestion, name, Str("a"), Some(["a", "b"]), name + ":");
    AssignFromEmpty(defaults);
    var answers := [(name, Str("b"))];
    assert Set(defaults, name, Str("b")) == answers;
    assert Assign(answers, answers[1..]) == answers;
    assert Assign(defaults, answers) == answers;
  }
}
