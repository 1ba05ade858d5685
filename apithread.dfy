/**
 * One run of `OpenRouterAPIThread`: build the payload, post it, and turn the
 * outcome into one signal. The HTTP exchange itself is a parameter.
 */
module ApiThread {
  import opened Attachment
  import opened Request
  import opened Response

  /** What the thread is started with. */
  datatype ApiRequest = ApiRequest(
    apiKey: string,
    baseUrl: string,
    model: string,
    messages: seq<Message>,
    files: seq<AttachedFile>)

  /** The POST the thread issues: URL, the two headers, JSON body and timeout. */
  datatype PostRequest = PostRequest(
    url: string,
    authorization: string,
    contentType: string,
    body: Payload,
    timeoutSeconds: nat)

  const TimeoutSeconds: nat := 60

  /** Sends a post and reports what came back; the network is not modelled. */
  type Transport = PostRequest -> HttpResult

  /**
   * `run`: posts the payload for the request to `<base>/chat/completions`
   * with bearer authorisation and a 60-second timeout, and emits the one
   * event the response calls for.
   */
  method Run(req: ApiRequest, encode: Encoder, post: Transport) returns (sent: PostRequest, event: Event)
    ensures sent.url == req.baseUrl + "/chat/completions"
    ensures sent.authorization == "Bearer " + req.apiKey
    ensures sent.contentType == "application/json"
    ensures sent.timeoutSeconds == 60
    ensures sent.body == RequestPayload(req.model, req.messages, req.files, encode)
    ensures event == Outcome(post(sent))
  {
    var messages := BuildApiMessages(req.messages, req.files, encode);
    var data := Payload(req.model, messages, MaxTokens, Temperature);
    sent := PostRequest(req.baseUrl + "/chat/completions", "Bearer " + req.apiKey, "application/json", data, TimeoutSeconds);
    var response := post(sent);
    event := Outcome(response);
  }
}
