/**
 * The provider clients. Each sends `prompt + "\n" + user_input` to a chat
 * model and returns the answer with surrounding whitespace stripped; the
 * three clients differ only in the SDK they call. The remote service is an
 * oracle: for a model name and a full prompt it answers a text or fails,
 * and a failure surfaces as the exception the client raises.
 */
module Llm {
  import opened Base
  import opened Strings

  /** A completion service: model name and full prompt in, a reply out. */
  type Oracle = (string, string) -> Reply

  /** The message sent to the model: the prompt, a newline, the user's input. */
  function FullPrompt(prompt: string, userInput: string): (m: string)
    ensures |m| == |prompt| + 1 + |userInput|
    ensures m[..|prompt|] == prompt && m[|prompt|] == '\n' && m[|prompt| + 1..] == userInput
  {
    prompt + "\n" + userInput
  }

  /**
   * `query_groq_llm`, `query_gemini_llm`, `query_ollama_llm`: the stripped
   * answer, or the exception a failed call raises.
   */
  function Query(ask: Oracle, model: string, prompt: string, userInput: string): (r: Result<string>)
    ensures r.Err? <==> ask(model, FullPrompt(prompt, userInput)).Failure?
    ensures r.Err? ==> r.error == Raised(ask(model, FullPrompt(prompt, userInput)).message)
    ensures r.Ok? ==> NonSpace(r.value) == NonSpace(ask(model, FullPrompt(prompt, userInput)).text)
    ensures r.Ok? && r.value != "" ==> !IsSpace(r.value[0]) && !IsSpace(r.value[|r.value| - 1])
    ensures r.Ok? ==> (r.value == "" <==> AllSpace(ask(model, FullPrompt(prompt, userInput)).text))
    ensures r.Ok? ==> var answer := ask(model, FullPrompt(prompt, userInput)).text;
      exists i, j :: 0 <= i <= j <= |answer| && r.value == answer[i..j] && AllSpace(answer[..i]) && AllSpace(answer[j..])
  {
    match ask(model, FullPrompt(prompt, userInput))
    case Answer(text) => Ok(Strip(text))
    case Failure(message) => Err(Raised(message))
  }
}
