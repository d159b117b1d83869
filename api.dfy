/** The `POST /api/send` route of index.js: three guards in a fixed order,
    then the send loop, then the reply. */
module Api {
  import opened JsValues
  import opened Sender

  /** The two fields the route reads from the decoded JSON body; a field the
      body lacks is `Undefined`. */
  datatype Body = Body(numbers: JsValue, message: JsValue)

  /** The route's possible replies. */
  datatype Response = NotReady | InvalidNumbers | MessageRequired | Succeeded | SendFailed

  /** The HTTP status of each reply. */
  function StatusCode(r: Response): (code: int)
    ensures code == 200 <==> r.Succeeded?
    ensures code == 400 <==> r.InvalidNumbers? || r.MessageRequired?
    ensures code == 500 <==> r.SendFailed?
    ensures code == 503 <==> r.NotReady?
  {
    match r
    case NotReady => 503
    case InvalidNumbers => 400
    case MessageRequired => 400
    case Succeeded => 200
    case SendFailed => 500
  }

  /** The numbers guard passes for a truthy, non-empty array. Every array is
      truthy, so the `!numbers` test never decides on its own: the guard
      passes exactly for a non-empty array. */
  predicate ValidNumbers(v: JsValue): (valid: bool)
    ensures valid <==> v.Array? && |v.items| > 0
  {
    Truthy(v) && v.Array? && |v.items| > 0
  }

  /** The route handler. `isReady` is the session flag when the request
      arrives; `answers` is the adapter oracle for the send loop. A run the
      loop completes answers 200 even when every number failed; only an
      error that escapes the loop answers 500. */
  method PostSend(isReady: bool, body: Body, answers: seq<Answers>, minDelay: int)
    returns (response: Response, calls: seq<Call>)
    requires body.numbers.Array? ==> |answers| >= |body.numbers.items|
    ensures !isReady ==> response == NotReady && calls == []
    ensures isReady && !ValidNumbers(body.numbers) ==> response == InvalidNumbers && calls == []
    ensures isReady && ValidNumbers(body.numbers) && !Truthy(body.message)
            ==> response == MessageRequired && calls == []
    ensures isReady && ValidNumbers(body.numbers) && Truthy(body.message) ==>
              var run := Process(body.numbers.items, body.message, answers, minDelay);
              && calls == run.calls
              && (response == if run.aborted then SendFailed else Succeeded)
  {
    if !isReady {
      return NotReady, [];
    }
    var numbers := body.numbers;
    if !Truthy(numbers) || !numbers.Array? || |numbers.items| == 0 {
      return InvalidNumbers, [];
    }
    if !Truthy(body.message) {
      return MessageRequired, [];
    }
    var run := SendMessages(numbers.items, body.message, answers, minDelay);
    calls := run.calls;
    response := if run.aborted then SendFailed else Succeeded;
  }

  /** A request that gets past the guards reaches the adapter: its first
      number, when it is a string, is always asked about. */
  lemma {:induction false} GuardedRequestReachesAdapter(body: Body, answers: seq<Answers>, minDelay: int)
    requires ValidNumbers(body.numbers) && |answers| >= |body.numbers.items|
    requires body.numbers.items[0].Str?
    ensures Process(body.numbers.items, body.message, answers, minDelay).calls != []
  {
    var ns := body.numbers.items;
    VisitShape(ns[0].s, body.message, answers[0], minDelay);
  }
}
