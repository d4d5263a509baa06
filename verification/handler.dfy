/**
 The `/analyze` route, reduced to its one decision: an empty or missing
 `policy_text` is refused with status 400 and a fixed message before the scorer
 is reached; any other text is scored and the report returned.
 */
module Handler {
  import opened Scorer

  /** An HTTP error response: status code and the `error` message of its JSON body. */
  datatype Error = Error(status: nat, message: string)

  datatype Result<R, E> = Success(value: R) | Failure(error: E)

  const NoPolicyText: Error := Error(400, "No policy text provided")

  /** The handler once `policy_text` has been read: `if not policy_text` refuses, otherwise the text is scored. */
  function Analyze(policyText: string): (r: Result<Report, Error>)
    ensures r.Failure? <==> policyText == []
    ensures r.Failure? ==> r.error == NoPolicyText
    ensures r.Success? ==> r.value == Score(policyText)
  {
    if policyText == [] then Failure(NoPolicyText) else Success(Score(policyText))
  }

  /**
   The handler on the request's JSON object, with string-valued fields only:
   `data.get("policy_text", "")` reads a missing field as the empty text.
   */
  function HandleRequest(body: map<string, string>): (r: Result<Report, Error>)
    ensures r == Failure(NoPolicyText) <==> "policy_text" !in body || body["policy_text"] == []
    ensures "policy_text" in body && body["policy_text"] != [] ==> r == Success(Score(body["policy_text"]))
  {
    var policyText := if "policy_text" in body then body["policy_text"] else "";
    Analyze(policyText)
  }

  /** Every accepted text gets the full eight-entry report, with a final rating between 2.5 and 3.4. */
  lemma {:induction false} AcceptedTextGetsReport(policyText: string)
    requires policyText != []
    ensures Analyze(policyText).Success?
    ensures |Analyze(policyText).value.ratings| == 8
    ensures forall i :: 0 <= i < 8 ==>
      Analyze(policyText).value.ratings[i].parameter == Name(Parameters[i])
    ensures 25 <= Analyze(policyText).value.finalRating.tenths <= 34
  {
    RatingBounds(policyText);
  }

  /** The empty text, an empty JSON object and an explicitly empty `policy_text` are all refused with 400. */
  lemma EmptyRequestsRefused()
    ensures Analyze("") == Failure(NoPolicyText)
    ensures HandleRequest(map[]) == Failure(NoPolicyText)
    ensures HandleRequest(map["policy_text" := ""]) == Failure(NoPolicyText)
  {
  }
}
