// The increments of engine/types.go and the deltas a sequence of them adds up to.
module Outputs {
  // The fields of an increment that a newer one supersedes.
  datatype Cumulative = Cumulative(
    outputTokens: seq<int>, outputText: string, finishReason: string,
    promptTokens: int, completionTokens: int, cachedTokens: int, cacheCreation: int, err: string)

  datatype Output = Output(
    requestId: string, newTokens: seq<int>, newText: string, finished: bool, rest: Cumulative)

  datatype Deltas = Deltas(text: string, tokens: seq<int>)
  {
    function Plus(o: Output): Deltas {
      Deltas(text + o.newText, tokens + o.newTokens)
    }

    predicate PrefixOf(other: Deltas) {
      text <= other.text && tokens <= other.tokens
    }
  }

  // The deltas of a sequence of increments, joined.
  function Total(outs: seq<Output>): Deltas {
    if outs == [] then Deltas("", []) else Total(outs[..|outs| - 1]).Plus(outs[|outs| - 1])
  }

  lemma TotalSnoc(outs: seq<Output>, o: Output)
    ensures Total(outs + [o]) == Total(outs).Plus(o)
  {
    assert (outs + [o])[..|outs|] == outs;
  }
}
