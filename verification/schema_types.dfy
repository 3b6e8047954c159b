/** The shapes shared by every schema version (src/types/schema.ts). */
module SchemaTypes {
  import opened Wrappers
  import opened JsValues

  /** How serious a finding is; only `Error` is rendered as an editor error. */
  datatype Severity = Error | Warning | Info

  datatype ValidationError = ValidationError(message: string, field: string, severity: Severity)

  /** `valid` is meant to be true exactly when `errors` is empty. */
  datatype ValidationResult = ValidationResult(valid: bool, errors: seq<ValidationError>)

  /** A field's declared type: one tag, or an ordered list of acceptable tags. */
  datatype FieldType = Tag(tag: string) | Union(tags: seq<string>)

  /**
   * A field definition: its type and its optional custom validator. The field's
   * description lives in the bundle's description table (`Descriptions` below),
   * which only the hover reads.
   */
  datatype FieldDefinition = FieldDefinition(
    fieldType: FieldType,
    validator: Option<Value -> bool>)

  /** Field name to documentation text, in declaration order. */
  type Descriptions = seq<(string, string)>

  /**
   * Agent and task schemas share one shape: an ordered list of required names and
   * the optional-field table, in declaration order.
   */
  datatype RecordSchema = RecordSchema(
    requiredFields: seq<string>,
    optionalFields: seq<(string, FieldDefinition)>)

  type AgentSchemaDefinition = RecordSchema
  type TaskSchemaDefinition = RecordSchema

  /**
   * One versioned bundle: its version, both tables, their field descriptions and the
   * two validate operations.
   */
  datatype CrewAISchema = CrewAISchema(
    version: string,
    agentSchema: AgentSchemaDefinition,
    taskSchema: TaskSchemaDefinition,
    agentDescriptions: Descriptions,
    taskDescriptions: Descriptions,
    validateAgent: Value -> ValidationResult,
    validateTask: Value -> ValidationResult)
}
