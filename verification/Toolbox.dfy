/** The tools as the graph sees them: filling in known arguments, and running a call into evidence. */
module Toolbox {
  import opened Domain

  /** Each tool's name with the argument names it declares. */
  type Catalogue = map<string, set<string>>

  /** A question put to a tool: its name and the arguments it really runs with. */
  type Question = (string, Args)

  function Asked(e: Evidence): Question { (e.tool, e.input) }

  predicate Blank(value: Json) { value == Null || value == Text("") }

  /** Known facts fill the declared arguments the model left out, null or empty. */
  function WithContext(declared: set<string>, arguments: Args, context: Args): Args {
    var supplied := map k | k in arguments && !Blank(arguments[k]) :: arguments[k];
    if context == map[] then supplied
    else (map k | k in context && k in declared && k !in supplied :: context[k]) + supplied
  }

  function ArgumentsFor(tools: Catalogue, name: string, arguments: Args, context: Args): Args {
    if name !in tools then arguments else WithContext(tools[name], arguments, context)
  }

  /** Runs one call. A tool that does not exist is recorded as a failed piece of evidence. */
  function RunTool(tools: Catalogue, name: string, arguments: Args, context: Args, ok: bool): Evidence {
    if name !in tools then Evidence(name, arguments, false)
    else Evidence(name, ArgumentsFor(tools, name, arguments, context), ok)
  }

  /** What to pass a tool. The model is asked only for declared arguments that the incident does not
      supply, and a failed choice falls back to the known facts rather than failing. */
  function Resolve(tools: Catalogue, name: string, context: Args, choice: Option<Args>): Args {
    if name !in tools || tools[name] <= context.Keys || choice.None? then map[]
    else
      map k | k in choice.value && k in tools[name] && k !in context && choice.value[k] != Null :: choice.value[k]
  }

  /** The question a gather round checks for is the question the evidence then records. */
  lemma CheckedQuestionIsRecorded(
    tools: Catalogue, name: string, arguments: Args, context: Args, ok: bool)
    ensures Asked(RunTool(tools, name, arguments, context, ok))
         == (name, ArgumentsFor(tools, name, arguments, context))
    ensures name !in tools ==> !RunTool(tools, name, arguments, context, ok).succeeded
  {}

  /** Filling in context twice changes nothing; the incident's facts never override a supplied value. */
  lemma ContextFillingIsIdempotent(tools: Catalogue, name: string, arguments: Args, context: Args)
    ensures var once := ArgumentsFor(tools, name, arguments, context);
            && ArgumentsFor(tools, name, once, context) == once
            && (forall k :: k in arguments && !Blank(arguments[k]) ==> k in once && once[k] == arguments[k])
            && (name in tools ==> forall k :: k in once <==>
                  (k in arguments && !Blank(arguments[k])) || (k in context && k in tools[name]))
            && (forall k :: k in once && (k !in arguments || Blank(arguments[k])) && name in tools ==>
                  once[k] == context[k])
  {}
}
