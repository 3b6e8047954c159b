/**
 * The CrewAI 0.102.0 schema (src/schemas/0.102.0/): the agent and task tables, in
 * declaration order, and the bundle that hands each table to the validator.
 */
module Schema0102 {
  import opened Wrappers
  import opened Strings
  import opened JsValues
  import opened SchemaTypes
  import opened Validator

  /** A table entry: none of this version's fields has a custom predicate. */
  function Def(t: FieldType): FieldDefinition {
    FieldDefinition(t, None)
  }

  const AgentSchema: AgentSchemaDefinition := RecordSchema(
    ["role", "goal", "backstory"],
    [
      ("role", Def(Tag("string"))),
      ("goal", Def(Tag("string"))),
      ("backstory", Def(Tag("string"))),
      ("llm", Def(Union(["string", "object"]))),
      ("tools", Def(Tag("array"))),
      ("function_calling_llm", Def(Tag("object"))),
      ("max_iter", Def(Tag("number"))),
      ("max_rpm", Def(Tag("number"))),
      ("max_execution_time", Def(Tag("number"))),
      ("memory", Def(Tag("boolean"))),
      ("verbose", Def(Tag("boolean"))),
      ("allow_delegation", Def(Tag("boolean"))),
      ("step_callback", Def(Tag("object"))),
      ("cache", Def(Tag("boolean"))),
      ("system_template", Def(Tag("string"))),
      ("prompt_template", Def(Tag("string"))),
      ("response_template", Def(Tag("string"))),
      ("allow_code_execution", Def(Tag("boolean"))),
      ("max_retry_limit", Def(Tag("number"))),
      ("respect_context_window", Def(Tag("boolean"))),
      ("code_execution_mode", Def(Tag("string"))),
      ("embedder", Def(Tag("object"))),
      ("knowledge_sources", Def(Tag("array"))),
      ("use_system_prompt", Def(Tag("boolean")))
    ])

  const TaskSchema: TaskSchemaDefinition := RecordSchema(
    ["description", "expected_output"],
    [
      ("description", Def(Tag("string"))),
      ("expected_output", Def(Tag("string"))),
      ("name", Def(Tag("string"))),
      ("agent", Def(Union(["string", "object"]))),
      ("tools", Def(Tag("array"))),
      ("context", Def(Tag("array"))),
      ("async_execution", Def(Tag("boolean"))),
      ("human_input", Def(Tag("boolean"))),
      ("config", Def(Tag("object"))),
      ("output_file", Def(Tag("string"))),
      ("output_json", Def(Tag("object"))),
      ("output_pydantic", Def(Tag("object"))),
      ("callback", Def(Tag("object")))
    ])

  const AgentDescriptions: Descriptions := [
    ("role",
     "The role or title of the agent that defines their responsibilities."),
    ("goal",
     "The agent's primary objective or purpose within the crew."),
    ("backstory",
     "Provides context and personality to the agent, enriching interactions."),
    ("llm",
     "Language model that powers the agent. Defaults to the model specified in OPENAI_MODEL_NAME or \"gpt-4\"."),
    ("tools",
     "Capabilities or functions available to the agent. Defaults to an empty list."),
    ("function_calling_llm",
     "Language model for tool calling, overrides crew's LLM if specified."),
    ("max_iter",
     "Maximum iterations before the agent must provide its best answer. Default is 20."),
    ("max_rpm",
     "Maximum requests per minute to avoid rate limits."),
    ("max_execution_time",
     "Maximum time (in seconds) for task execution."),
    ("memory",
     "Whether the agent should maintain memory of interactions. Default is True."),
    ("verbose",
     "Enable detailed execution logs for debugging. Default is False."),
    ("allow_delegation",
     "Allow the agent to delegate tasks to other agents. Default is False."),
    ("step_callback",
     "Function called after each agent step, overrides crew callback."),
    ("cache",
     "Enable caching for tool usage. Default is True."),
    ("system_template",
     "Custom system prompt template for the agent."),
    ("prompt_template",
     "Custom prompt template for the agent."),
    ("response_template",
     "Custom response template for the agent."),
    ("allow_code_execution",
     "Enable code execution for the agent. Default is False."),
    ("max_retry_limit",
     "Maximum number of retries when an error occurs. Default is 2."),
    ("respect_context_window",
     "Keep messages under context window size by summarizing. Default is True."),
    ("code_execution_mode",
     "Mode for code execution: 'safe' (using Docker) or 'unsafe' (direct). Default is 'safe'."),
    ("embedder",
     "Configuration for the embedder used by the agent."),
    ("knowledge_sources",
     "Knowledge sources available to the agent."),
    ("use_system_prompt",
     "Whether to use system prompt (for o1 model support). Default is True.")
  ]

  const TaskDescriptions: Descriptions := [
    ("description",
     "A clear, concise statement of what the task entails."),
    ("expected_output",
     "A detailed description of what the task's completion looks like."),
    ("name",
     "A name identifier for the task."),
    ("agent",
     "The agent responsible for executing the task."),
    ("tools",
     "The tools/resources the agent is limited to use for this task."),
    ("context",
     "Other tasks whose outputs will be used as context for this task."),
    ("async_execution",
     "Whether the task should be executed asynchronously. Defaults to False."),
    ("human_input",
     "Whether the task should have a human review the final answer of the agent. Defaults to False."),
    ("config",
     "Task-specific configuration parameters."),
    ("output_file",
     "File path for storing the task output."),
    ("output_json",
     "A Pydantic model to structure the JSON output."),
    ("output_pydantic",
     "A Pydantic model for task output."),
    ("callback",
     "Function/object to be executed after task completion.")
  ]

  const Version: string := "0.102.0"

  /** The exported bundle: each validate operation is the validator closed over its table. */
  const Bundle: CrewAISchema := CrewAISchema(
    Version, AgentSchema, TaskSchema, AgentDescriptions, TaskDescriptions,
    d => Validation(AgentSchema, d),
    d => Validation(TaskSchema, d))


  // One lookup per lemma: each instance of the lookup over the literal table is
  // proved on its own and the summaries below collect them.

  lemma AgentDeclaresRole()
    ensures Lookup(AgentSchema.optionalFields, "role") == Some(Def(Tag("string")))
  {
    LookupAt(AgentSchema.optionalFields, "role", 0);
  }

  lemma AgentDeclaresGoal()
    ensures Lookup(AgentSchema.optionalFields, "goal") == Some(Def(Tag("string")))
  {
    LookupAt(AgentSchema.optionalFields, "goal", 1);
  }

  lemma AgentDeclaresBackstory()
    ensures Lookup(AgentSchema.optionalFields, "backstory") == Some(Def(Tag("string")))
  {
    LookupAt(AgentSchema.optionalFields, "backstory", 2);
  }

  lemma AgentDeclaresLlm()
    ensures Lookup(AgentSchema.optionalFields, "llm") == Some(Def(Union(["string", "object"])))
  {
    LookupAt(AgentSchema.optionalFields, "llm", 3);
  }

  lemma AgentDeclaresTools()
    ensures Lookup(AgentSchema.optionalFields, "tools") == Some(Def(Tag("array")))
  {
    LookupAt(AgentSchema.optionalFields, "tools", 4);
  }

  lemma AgentDeclaresMaxIter()
    ensures Lookup(AgentSchema.optionalFields, "max_iter") == Some(Def(Tag("number")))
  {
    LookupAt(AgentSchema.optionalFields, "max_iter", 6);
  }

  lemma AgentDeclaresMaxRpm()
    ensures Lookup(AgentSchema.optionalFields, "max_rpm") == Some(Def(Tag("number")))
  {
    LookupAt(AgentSchema.optionalFields, "max_rpm", 7);
  }

  lemma AgentDeclaresMaxExecutionTime()
    ensures Lookup(AgentSchema.optionalFields, "max_execution_time") == Some(Def(Tag("number")))
  {
    LookupAt(AgentSchema.optionalFields, "max_execution_time", 8);
  }

  lemma AgentDeclaresVerbose()
    ensures Lookup(AgentSchema.optionalFields, "verbose") == Some(Def(Tag("boolean")))
  {
    LookupAt(AgentSchema.optionalFields, "verbose", 10);
  }

  lemma AgentDeclaresAllowDelegation()
    ensures Lookup(AgentSchema.optionalFields, "allow_delegation") == Some(Def(Tag("boolean")))
  {
    LookupAt(AgentSchema.optionalFields, "allow_delegation", 11);
  }

  lemma AgentDeclaresMaxRetryLimit()
    ensures Lookup(AgentSchema.optionalFields, "max_retry_limit") == Some(Def(Tag("number")))
  {
    LookupAt(AgentSchema.optionalFields, "max_retry_limit", 18);
  }

  lemma AgentDeclaresKnowledgeSources()
    ensures Lookup(AgentSchema.optionalFields, "knowledge_sources") == Some(Def(Tag("array")))
  {
    LookupAt(AgentSchema.optionalFields, "knowledge_sources", 22);
  }

  lemma TaskDeclaresDescription()
    ensures Lookup(TaskSchema.optionalFields, "description") == Some(Def(Tag("string")))
  {
    LookupAt(TaskSchema.optionalFields, "description", 0);
  }

  lemma TaskDeclaresExpectedOutput()
    ensures Lookup(TaskSchema.optionalFields, "expected_output") == Some(Def(Tag("string")))
  {
    LookupAt(TaskSchema.optionalFields, "expected_output", 1);
  }

  lemma TaskDeclaresName()
    ensures Lookup(TaskSchema.optionalFields, "name") == Some(Def(Tag("string")))
  {
    LookupAt(TaskSchema.optionalFields, "name", 2);
  }

  lemma TaskDeclaresAgent()
    ensures Lookup(TaskSchema.optionalFields, "agent") == Some(Def(Union(["string", "object"])))
  {
    LookupAt(TaskSchema.optionalFields, "agent", 3);
  }

  lemma TaskDeclaresTools()
    ensures Lookup(TaskSchema.optionalFields, "tools") == Some(Def(Tag("array")))
  {
    LookupAt(TaskSchema.optionalFields, "tools", 4);
  }

  lemma TaskDeclaresContext()
    ensures Lookup(TaskSchema.optionalFields, "context") == Some(Def(Tag("array")))
  {
    LookupAt(TaskSchema.optionalFields, "context", 5);
  }

  lemma TaskDeclaresAsyncExecution()
    ensures Lookup(TaskSchema.optionalFields, "async_execution") == Some(Def(Tag("boolean")))
  {
    LookupAt(TaskSchema.optionalFields, "async_execution", 6);
  }

  lemma TaskDeclaresHumanInput()
    ensures Lookup(TaskSchema.optionalFields, "human_input") == Some(Def(Tag("boolean")))
  {
    LookupAt(TaskSchema.optionalFields, "human_input", 7);
  }

  lemma TaskDeclaresConfig()
    ensures Lookup(TaskSchema.optionalFields, "config") == Some(Def(Tag("object")))
  {
    LookupAt(TaskSchema.optionalFields, "config", 8);
  }

  lemma TaskDeclaresOutputJson()
    ensures Lookup(TaskSchema.optionalFields, "output_json") == Some(Def(Tag("object")))
  {
    LookupAt(TaskSchema.optionalFields, "output_json", 10);
  }

  lemma TaskDeclaresOutputPydantic()
    ensures Lookup(TaskSchema.optionalFields, "output_pydantic") == Some(Def(Tag("object")))
  {
    LookupAt(TaskSchema.optionalFields, "output_pydantic", 11);
  }

  lemma TaskDeclaresCallback()
    ensures Lookup(TaskSchema.optionalFields, "callback") == Some(Def(Tag("object")))
  {
    LookupAt(TaskSchema.optionalFields, "callback", 12);
  }

  lemma AgentRequiredNames()
    ensures AgentSchema.requiredFields == ["role", "goal", "backstory"]
    ensures NoDuplicates(AgentSchema.requiredFields)
  {
  }

  /** The agent's required names, in order; each is also documented as an optional string field. */
  lemma AgentRequiredFields()
    ensures AgentSchema.requiredFields == ["role", "goal", "backstory"]
    ensures NoDuplicates(AgentSchema.requiredFields)
    ensures Lookup(AgentSchema.optionalFields, "role") == Some(Def(Tag("string")))
    ensures Lookup(AgentSchema.optionalFields, "goal") == Some(Def(Tag("string")))
    ensures Lookup(AgentSchema.optionalFields, "backstory") == Some(Def(Tag("string")))
  {
    AgentRequiredNames();
    AgentDeclaresRole();
    AgentDeclaresGoal();
    AgentDeclaresBackstory();
  }

  /** `llm` takes a string or an object, `tools` and `knowledge_sources` lists, the limits numbers, the two flags booleans. */
  lemma AgentFieldTypes()
    ensures Lookup(AgentSchema.optionalFields, "llm") == Some(Def(Union(["string", "object"])))
    ensures Lookup(AgentSchema.optionalFields, "tools") == Some(Def(Tag("array")))
    ensures Lookup(AgentSchema.optionalFields, "max_iter") == Some(Def(Tag("number")))
    ensures Lookup(AgentSchema.optionalFields, "max_rpm") == Some(Def(Tag("number")))
    ensures Lookup(AgentSchema.optionalFields, "max_execution_time") == Some(Def(Tag("number")))
    ensures Lookup(AgentSchema.optionalFields, "verbose") == Some(Def(Tag("boolean")))
    ensures Lookup(AgentSchema.optionalFields, "allow_delegation") == Some(Def(Tag("boolean")))
    ensures Lookup(AgentSchema.optionalFields, "max_retry_limit") == Some(Def(Tag("number")))
    ensures Lookup(AgentSchema.optionalFields, "knowledge_sources") == Some(Def(Tag("array")))
  {
    AgentDeclaresLlm();
    AgentDeclaresTools();
    AgentDeclaresMaxIter();
    AgentDeclaresMaxRpm();
    AgentDeclaresMaxExecutionTime();
    AgentDeclaresVerbose();
    AgentDeclaresAllowDelegation();
    AgentDeclaresMaxRetryLimit();
    AgentDeclaresKnowledgeSources();
  }

  lemma TaskRequiredNames()
    ensures TaskSchema.requiredFields == ["description", "expected_output"]
    ensures NoDuplicates(TaskSchema.requiredFields)
  {
  }

  /** The task's required names, in order; both are also documented as optional string fields. */
  lemma TaskRequiredFields()
    ensures TaskSchema.requiredFields == ["description", "expected_output"]
    ensures NoDuplicates(TaskSchema.requiredFields)
    ensures Lookup(TaskSchema.optionalFields, "description") == Some(Def(Tag("string")))
    ensures Lookup(TaskSchema.optionalFields, "expected_output") == Some(Def(Tag("string")))
  {
    TaskRequiredNames();
    TaskDeclaresDescription();
    TaskDeclaresExpectedOutput();
  }

  /** `agent` takes a string or an object, `tools` and `context` lists, the two flags booleans, the four output and callback fields objects. */
  lemma TaskFieldTypes()
    ensures Lookup(TaskSchema.optionalFields, "name") == Some(Def(Tag("string")))
    ensures Lookup(TaskSchema.optionalFields, "agent") == Some(Def(Union(["string", "object"])))
    ensures Lookup(TaskSchema.optionalFields, "tools") == Some(Def(Tag("array")))
    ensures Lookup(TaskSchema.optionalFields, "context") == Some(Def(Tag("array")))
    ensures Lookup(TaskSchema.optionalFields, "async_execution") == Some(Def(Tag("boolean")))
    ensures Lookup(TaskSchema.optionalFields, "human_input") == Some(Def(Tag("boolean")))
    ensures Lookup(TaskSchema.optionalFields, "config") == Some(Def(Tag("object")))
    ensures Lookup(TaskSchema.optionalFields, "output_json") == Some(Def(Tag("object")))
    ensures Lookup(TaskSchema.optionalFields, "output_pydantic") == Some(Def(Tag("object")))
    ensures Lookup(TaskSchema.optionalFields, "callback") == Some(Def(Tag("object")))
  {
    TaskDeclaresName();
    TaskDeclaresAgent();
    TaskDeclaresTools();
    TaskDeclaresContext();
    TaskDeclaresAsyncExecution();
    TaskDeclaresHumanInput();
    TaskDeclaresConfig();
    TaskDeclaresOutputJson();
    TaskDeclaresOutputPydantic();
    TaskDeclaresCallback();
  }

  /** Every entry is plain: no custom predicate, and only tags the type switch knows. */
  predicate PlainTable(schema: RecordSchema) {
    forall i :: 0 <= i < |schema.optionalFields| ==>
      && schema.optionalFields[i].1.validator.None?
      && forall t :: t in Tags(schema.optionalFields[i].1.fieldType) ==> t in SupportedTags
  }

  lemma AgentTablePlain()
    ensures PlainTable(AgentSchema)
  {
  }

  lemma TaskTablePlain()
    ensures PlainTable(TaskSchema)
  {
  }

  /** The bundle's version literal, and each validate operation is the validator over its own table. */
  lemma BundleDelegates(d: Value)
    ensures Bundle.version == "0.102.0"
    ensures Bundle.validateAgent(d) == Validation(Bundle.agentSchema, d)
    ensures Bundle.validateTask(d) == Validation(Bundle.taskSchema, d)
  {
  }

  // What the bundle reports for a few shapes of record

  /** An agent whose required `name` is absent or falsy gets exactly the missing-field error against it, and is invalid. */
  lemma MissingAgentFieldReported(d: Value, name: string)
    requires name in AgentSchema.requiredFields && !Present(Get(d, name))
    ensures ErrorsFor(Bundle.validateAgent(d).errors, name) == [MissingError(name)]
    ensures !Bundle.validateAgent(d).valid
  {
    AgentRequiredNames();
    RequiredFieldReported(AgentSchema, d, name);
    var i :| 0 <= i < |AgentSchema.requiredFields| && AgentSchema.requiredFields[i] == name;
    ValidIffAcceptable(AgentSchema, d);
  }

  /** A task whose required `name` is absent or falsy gets exactly the missing-field error against it, and is invalid. */
  lemma MissingTaskFieldReported(d: Value, name: string)
    requires name in TaskSchema.requiredFields && !Present(Get(d, name))
    ensures ErrorsFor(Bundle.validateTask(d).errors, name) == [MissingError(name)]
    ensures !Bundle.validateTask(d).valid
  {
    TaskRequiredNames();
    RequiredFieldReported(TaskSchema, d, name);
    var i :| 0 <= i < |TaskSchema.requiredFields| && TaskSchema.requiredFields[i] == name;
    ValidIffAcceptable(TaskSchema, d);
  }

  /** An agent record whose `tools` entry is not a list: the record reports exactly the `array` type warning against `tools`. */
  lemma AgentToolsReported(d: Value, j: nat, v: Value)
    requires DistinctKeys(Entries(d)) && j < |Entries(d)| && Entries(d)[j] == ("tools", v) && !v.Arr?
    ensures ErrorsFor(Bundle.validateAgent(d).errors, "tools") == [TypeWarning("tools", Tag("array"), v)]
  {
    AgentRequiredNames();
    ToolsNotRequired();
    EntryReported(AgentSchema, d, j);
    ToolsMustBeList(v);
  }

  /** A task record whose `agent` entry is neither a string nor an object map: exactly the union's type warning against `agent`. */
  lemma TaskAgentReported(d: Value, j: nat, v: Value)
    requires DistinctKeys(Entries(d)) && j < |Entries(d)| && Entries(d)[j] == ("agent", v) && !v.Str? && !v.Obj?
    ensures ErrorsFor(Bundle.validateTask(d).errors, "agent") == [TypeWarning("agent", Union(["string", "object"]), v)]
  {
    TaskRequiredNames();
    EntryReported(TaskSchema, d, j);
    TaskAgentStringOrObject(v);
  }

  lemma ToolsNotRequired()
    ensures "tools" !in AgentSchema.requiredFields
  {
    AgentRequiredNames();
    assert forall r :: r in AgentSchema.requiredFields ==> r[0] != 't';
  }

  /**
   * An agent's `tools` value that is not a list gets exactly the `array` type warning;
   * by `Validator.EntryReported` that is all the record reports against `tools`.
   */
  lemma ToolsMustBeList(v: Value)
    requires !v.Arr?
    ensures EntryErrors(AgentSchema, "tools", v) == [TypeWarning("tools", Tag("array"), v)]
  {
    AgentRequiredNames();
    AgentDeclaresTools();
    ArrayTagAcceptsOnlyArrays(v);
    ToolsNotRequired();
    TypeWarningAlone(AgentSchema, "tools", v, Tag("array"));
  }

  /** A task's `agent` value that is neither a string nor an object map gets exactly the union's type warning. */
  lemma TaskAgentStringOrObject(v: Value)
    requires !v.Str? && !v.Obj?
    ensures EntryErrors(TaskSchema, "agent", v) == [TypeWarning("agent", Union(["string", "object"]), v)]
  {
    TaskRequiredNames();
    TaskDeclaresAgent();
    StringOrObjectUnion(v);
    TypeWarningAlone(TaskSchema, "agent", v, Union(["string", "object"]));
  }
}
