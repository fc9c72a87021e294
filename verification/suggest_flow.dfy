/** The improvement-suggestion result, as far as the report reads it. The flow
    itself (`src/ai/flows/suggest-improvements.ts`) is not part of this model. */
module SuggestFlow {

  datatype Output = Output(suggestions: seq<string>)
}
