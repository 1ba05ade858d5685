/**
 * How one run of the API thread ends: exactly one of the two signals
 * `message_received` and `error_occurred`, chosen from the HTTP outcome.
 */
module Response {
  import opened Wrappers
  import opened Text

  /** `choices[k]['message']`: the `content` key may be missing. */
  datatype ChoiceMessage = ChoiceMessage(content: Option<string>)

  /** `choices[k]`: the `message` key may be missing. */
  datatype Choice = Choice(message: Option<ChoiceMessage>)

  /**
   * The body that `response.json()` parses, grouped by the branch the
   * program takes on it:
   * - `NotJson`: parsing raises, with the library's message;
   * - `Object(None)`: the test `'choices' in result` is false (an object
   *   without the key, or a list or string not containing it);
   * - `Object(Some(choices))`: `choices` is a list of objects; an empty
   *   `choices` of any kind (list, string or object) is `Object(Some([]))`;
   * - `Malformed`: the body parses, but looking into it raises, with the
   *   exception's message (a `null` or number body, a non-empty `choices`
   *   that is not a list, a first choice or `message` that is not an object,
   *   or a `content` that is not a string, which the `str` signal rejects
   *   with a `TypeError` when it is emitted).
   */
  datatype Json =
    | NotJson(detail: string)
    | Object(choices: Option<seq<Choice>>)
    | Malformed(detail: string)

  /**
   * The result of the POST: an exception raised by the HTTP library (timeout,
   * connection failure, with its message), or a response with a status code,
   * its body text and how that body parses.
   */
  datatype HttpResult =
    | Raised(detail: string)
    | Answered(status: nat, text: string, json: Json)

  /** The signal a run emits, with its text argument. */
  datatype Event = MessageReceived(message: string) | ErrorOccurred(error: string)

  const InvalidResponse := "レスポンスが無効です"
  const ApiErrorPrefix := "API エラー: "
  const ExceptionPrefix := "エラーが発生しました: "

  /** `f"API エラー: {status} - {text}"` */
  function ApiErrorText(status: nat, body: string): (r: string)
    ensures |r| >= |ApiErrorPrefix| + 4 + |body|
    ensures ApiErrorPrefix <= r
  {
    ApiErrorPrefix + Decimal(status) + " - " + body
  }

  /** `f"エラーが発生しました: {str(e)}"` */
  function ExceptionText(detail: string): (r: string)
    ensures |r| == |ExceptionPrefix| + |detail|
    ensures r[..|ExceptionPrefix|] == ExceptionPrefix && r[|ExceptionPrefix|..] == detail
  {
    ExceptionPrefix + detail
  }

  /** `str(KeyError(key))` for a string key: the key in single quotes. */
  function KeyErrorText(key: string): (r: string)
    ensures |r| == |key| + 2 && r[0] == '\'' && r[|r| - 1] == '\'' && r[1..|r| - 1] == key
  {
    "'" + key + "'"
  }

  /** The event of a run whose POST ended with `r`. */
  function Outcome(r: HttpResult): (e: Event)
    ensures e.ErrorOccurred? ==> e.error != ""
    ensures e.MessageReceived? ==> r.Answered? && r.status == 200
  {
    match r
    case Raised(detail) => ErrorOccurred(ExceptionText(detail))
    case Answered(status, body, json) =>
      if status != 200 then ErrorOccurred(ApiErrorText(status, body))
      else
        match json
        case NotJson(detail) => ErrorOccurred(ExceptionText(detail))
        case Malformed(detail) => ErrorOccurred(ExceptionText(detail))
        case Object(choices) =>
          if choices.Some? && |choices.value| > 0 then
            match choices.value[0].message
            case None => ErrorOccurred(ExceptionText(KeyErrorText("message")))
            case Some(m) =>
              match m.content
              case None => ErrorOccurred(ExceptionText(KeyErrorText("content")))
              case Some(text) => MessageReceived(text)
          else ErrorOccurred(InvalidResponse)
  }

  /**
   * A message is received exactly when the status is 200 and the first of a
   * non-empty `choices` carries `message.content`; it is that content.
   */
  lemma ReceivedIff(r: HttpResult)
    ensures Outcome(r).MessageReceived? <==>
      r.Answered? && r.status == 200 && r.json.Object? && r.json.choices.Some?
      && |r.json.choices.value| > 0 && r.json.choices.value[0].message.Some?
      && r.json.choices.value[0].message.value.content.Some?
    ensures Outcome(r).MessageReceived? ==>
      Outcome(r).message == r.json.choices.value[0].message.value.content.value
  {
  }

  /** Status 200 with `choices` missing or empty is the invalid-response error. */
  lemma NoChoicesIsInvalid(status: nat, body: string, choices: Option<seq<Choice>>)
    requires status == 200 && (choices.None? || choices.value == [])
    ensures Outcome(Answered(status, body, Object(choices))) == ErrorOccurred(InvalidResponse)
  {
  }

  /** Any other status is reported with the status code and body, whatever the body holds. */
  lemma OtherStatusIsApiError(r: HttpResult)
    requires r.Answered? && r.status != 200
    ensures Outcome(r) == ErrorOccurred(ApiErrorText(r.status, r.text))
  {
  }

  /** An exception, a body that does not parse, or one whose inspection raises, is reported with its message. */
  lemma ExceptionIsError(r: HttpResult)
    requires r.Raised? || (r.Answered? && r.status == 200 && (r.json.NotJson? || r.json.Malformed?))
    ensures Outcome(r) == ErrorOccurred(ExceptionText(if r.Raised? then r.detail else r.json.detail))
  {
  }

  /**
   * The API error text determines the status code and the body: two errors
   * read the same only when both come from the same status and body.
   */
  lemma ApiErrorTextInjective(s1: nat, b1: string, s2: nat, b2: string)
    requires ApiErrorText(s1, b1) == ApiErrorText(s2, b2)
    ensures s1 == s2 && b1 == b2
  {
    var d1, d2 := Decimal(s1), Decimal(s2);
    var n := |ApiErrorPrefix|;
    var t1, t2 := d1 + " - " + b1, d2 + " - " + b2;
    assert ApiErrorText(s1, b1) == ApiErrorPrefix + t1;
    assert ApiErrorText(s2, b2) == ApiErrorPrefix + t2;
    assert t1 == ApiErrorText(s1, b1)[n..] == t2;
    assert t1 == d1 + (" - " + b1) && t2 == d2 + (" - " + b2);
    DigitsThenSpace(d1, " - " + b1, d2, " - " + b2);
    assert d1 == d2;
    DecimalInjective(s1, s2);
    assert b1 == t1[|d1| + 3..];
    assert b2 == t2[|d2| + 3..];
  }

  /** The number of decimal digits `w` starts with. */
  function DigitRun(w: string): nat
  {
    if w != [] && '0' <= w[0] <= '9' then 1 + DigitRun(w[1..]) else 0
  }

  /** Digits followed by something that starts with a space: the run is the digits. */
  lemma {:induction false} DigitRunOf(d: string, u: string)
    requires AllDigits(d) && u != [] && u[0] == ' '
    ensures DigitRun(d + u) == |d|
  {
    if d == [] {
      assert d + u == u;
    } else {
      assert (d + u)[1..] == d[1..] + u;
      DigitRunOf(d[1..], u);
    }
  }

  /** A run of digits followed by a space is found again at the same length. */
  lemma DigitsThenSpace(d1: string, u1: string, d2: string, u2: string)
    requires AllDigits(d1) && AllDigits(d2) && u1 != [] && u2 != [] && u1[0] == ' ' && u2[0] == ' '
    requires d1 + u1 == d2 + u2
    ensures d1 == d2
  {
    DigitRunOf(d1, u1);
    DigitRunOf(d2, u2);
    assert d1 == (d1 + u1)[..|d1|] && d2 == (d2 + u2)[..|d2|];
  }
}
