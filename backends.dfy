/**
 * The two AI backends the assertions talk to, Spring AI's EmbeddingModel and
 * ChatModel. Their answers are fixed functions of the input (what a network
 * client returns is not modelled); each object keeps a log of the inputs it
 * was called with, so that a contract can say how often, in which order and
 * with what a backend was called.
 */
module Backends {
  import opened Wrappers

  /** An embedding backend: embed(text) returns vectorOf(text); a null text or a null vector is passed through. */
  class EmbeddingModel {
    const vectorOf: Option<string> -> Option<seq<real>>
    /** The texts embed was called with, oldest first. */
    var inputs: seq<Option<string>>

    constructor (vectorOf: Option<string> -> Option<seq<real>>)
      ensures this.vectorOf == vectorOf
      ensures inputs == []
    {
      this.vectorOf := vectorOf;
      inputs := [];
    }

    /** embed(text): one call, logged, answered by vectorOf. */
    method Embed(text: Option<string>) returns (v: Option<seq<real>>)
      modifies this
      ensures v == vectorOf(text)
      ensures inputs == old(inputs) + [text]
    {
      inputs := inputs + [text];
      v := vectorOf(text);
    }
  }

  /** A chat backend: call(prompt) returns respond(prompt), which may be null. */
  class ChatModel {
    const respond: string -> Option<string>
    /** The prompts call was called with, oldest first. */
    var prompts: seq<string>

    constructor (respond: string -> Option<string>)
      ensures this.respond == respond
      ensures prompts == []
    {
      this.respond := respond;
      prompts := [];
    }

    /** call(prompt): one call, logged, answered by respond. */
    method Call(prompt: string) returns (response: Option<string>)
      modifies this
      ensures response == respond(prompt)
      ensures prompts == old(prompts) + [prompt]
    {
      prompts := prompts + [prompt];
      response := respond(prompt);
    }
  }
}
