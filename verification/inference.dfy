/** Verdict extraction from the inference backend's reply to
    `POST /api/generate` (`queryLLM`). */
module Inference {
  import opened Options

  /** A reply of the backend: its raw body text, whether `jsonPath()` can
      parse that body as JSON, and the `response` field as
      `getString("response")` reads it from the parsed body, `None` when the
      field is absent or null. */
  datatype GenerateReply = GenerateReply(body: string, json: bool, response: Option<string>)

  /** The verdict: `None` when the body is not JSON, because `getString`
      then throws and nothing catches it; otherwise the `response` field when
      it is there, and the whole body unchanged when it is not. */
  function Verdict(reply: GenerateReply): (v: Option<string>)
    ensures v.None? <==> !reply.json
    ensures v.Some? && reply.response.Some? ==> v.value == reply.response.value
    ensures v.Some? && reply.response.None? ==> v.value == reply.body
  {
    if !reply.json then None
    else if reply.response.None? then Some(reply.body)
    else reply.response
  }

  /** The verdict is the raw body exactly when the body is JSON and the field
      is missing or happens to equal the body; a present field is never
      replaced by the body, even when it is empty. */
  lemma VerdictIsBody(reply: GenerateReply)
    ensures Verdict(reply) == Some(reply.body)
        <==> reply.json && (reply.response.None? || reply.response.value == reply.body)
    ensures reply.json && reply.response == Some("") ==> Verdict(reply) == Some("")
  {
  }

  /** A reply carrying `"response": "X"` yields `X`; a JSON reply without the
      field yields its body verbatim; a plain-text body yields no verdict. */
  lemma VerdictSamples()
    ensures Verdict(GenerateReply("{\"response\":\"X\"}", true, Some("X"))) == Some("X")
    ensures Verdict(GenerateReply("{\"other\":\"Y\"}", true, None)) == Some("{\"other\":\"Y\"}")
    ensures Verdict(GenerateReply("404 page not found", false, None)) == None
  {
  }
}
