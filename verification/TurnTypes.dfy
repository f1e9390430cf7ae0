/** What an agent answers for one turn. */
module TurnTypes {
  import opened Wrappers

  datatype Usage = Usage(tokensIn: int, tokensOut: int)

  datatype TurnResponse = TurnResponse(
    done: bool, handoffTo: string, summary: string, artifacts: seq<string>, selfEval: string, usage: Option<Usage>)
}
