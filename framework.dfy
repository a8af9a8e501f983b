/**
 * The shapes of the two definition catalogues the spec generator consults:
 * WorkflowKit's action definitions and the app-intent definitions bundled
 * with applications (integration/shortcuts/lib/framework.ts). Only the
 * fields the spec generator reads are kept; loading the catalogues from
 * the host is not part of this model, so they reach it as maps.
 */
module Framework {
  import opened Wrappers
  import opened Json

  /** `Description` of a WorkflowKit action. */
  datatype DescriptionDefinition = DescriptionDefinition(
    descriptionSummary: Option<string>,
    descriptionNote: Option<string>)

  /** One entry of a WorkflowKit action's `Parameters`. */
  datatype ParameterDefinition = ParameterDefinition(
    key: string,
    parameterClass: Option<string>,
    paramLabel: Option<string>,
    description: Option<string>,
    defaultValue: Option<Node>)

  /** `Output` of a WorkflowKit action. */
  datatype OutputDefinition = OutputDefinition(
    outputName: Option<string>,
    types: Option<seq<string>>)

  /** `WorkflowKit.ActionDefinition`. */
  datatype ActionDefinition = ActionDefinition(
    description: Option<DescriptionDefinition>,
    parameters: Option<seq<ParameterDefinition>>,
    output: Option<OutputDefinition>)

  /** One entry of an app intent's `parameters`; `titleKey` is `title.key`. */
  datatype AppIntentParameterDefinition = AppIntentParameterDefinition(
    name: string,
    titleKey: string,
    isOptional: bool)

  /** The `descriptionMetadata` of an app intent, as far as its `description` field. */
  datatype DescriptionMetadata = DescriptionMetadata(description: Option<string>)

  /** `ApplicationBundle.AppIntentActionDefinition`. */
  datatype AppIntentActionDefinition = AppIntentActionDefinition(
    identifier: string,
    titleKey: string,
    parameters: Option<seq<AppIntentParameterDefinition>>,
    descriptionMetadata: Option<DescriptionMetadata>)

  /** `ApplicationBundle.AppIntentDefinition`: the app's intents by identifier. */
  datatype AppIntentDefinition = AppIntentDefinition(actions: map<string, AppIntentActionDefinition>)

  /** The WorkflowKit catalogue, by action identifier. */
  type WorkflowKitActions = map<string, ActionDefinition>

  /** The app-intent catalogue, by bundle identifier. */
  type AppIntentActions = map<string, AppIntentDefinition>
}
