/**
 * helper/errors: the service's coded error type, its rendering and comparison, and the
 * table that maps error codes to HTTP status codes.
 */
module Errors {
  import opened Base
  import opened Strs

  /** A coded error. Data is an arbitrary payload; Null stands for Go's nil. */
  datatype Error = Error(code: string, message: string, data: Json)

  /**
   * A non-nil Go error value: either an Error, or any other error, which the service only
   * ever observes through its Error() text. A nil error is Option.None.
   */
  datatype GoError = Coded(err: Error) | Plain(text: string)

  /** Error.Error(): the code, a colon and a space, then the message. */
  function ErrorText(e: Error): string {
    e.code + ": " + e.message
  }

  /** err.Error() for any error. */
  function Text(g: GoError): string {
    match g
    case Coded(e) => ErrorText(e)
    case Plain(t) => t
  }

  /** For one code, the rendering determines the message. */
  lemma ErrorTextDeterminesMessage(a: Error, b: Error)
    requires a.code == b.code && ErrorText(a) == ErrorText(b)
    ensures a.message == b.message
  {
    var p := a.code + ": ";
    assert ErrorText(a) == p + a.message && ErrorText(b) == p + b.message;
    assert a.message == ErrorText(a)[|p|..];
    assert b.message == ErrorText(b)[|p|..];
  }

  /** WithMessage: an error with the given code and message and no data. */
  function WithMessage(code: string, message: string): (e: Error)
    ensures e.code == code && e.message == message && e.data == Null
  {
    Error(code, message, Null)
  }

  /**
   * GetMessageOnly: keeps only the message of an Error, as a plain error; any other error
   * is returned as it is.
   */
  function GetMessageOnly(g: GoError): (r: GoError)
    ensures g.Coded? ==> r == Plain(g.err.message)
    ensures g.Plain? ==> r == g
  {
    match g
    case Coded(e) => Plain(e.message)
    case Plain(_) => g
  }

  /** GetCodeFromError: the code of an Error, the Error() text of any other error. */
  function GetCodeFromError(g: GoError): (code: string)
    ensures g.Coded? ==> code == g.err.code
    ensures g.Plain? ==> code == Text(g)
  {
    match g
    case Coded(e) => e.code
    case Plain(t) => t
  }

  /**
   * The message AppendMessage leaves after the arguments ins: unchanged when there are
   * none; otherwise the first argument verbatim, each later one appended after ". " and
   * the whole trimmed of white space.
   */
  function AppendedMessage(message: string, ins: seq<string>): string
    decreases |ins|
  {
    if |ins| == 0 then message
    else if |ins| == 1 then ins[0]
    else TrimSpace(AppendedMessage(message, ins[..|ins| - 1]) + ". " + ins[|ins| - 1])
  }

  /** The Error AppendMessage returns: e with only its message replaced. */
  function Appended(e: Error, ins: seq<string>): Error {
    e.(message := AppendedMessage(e.message, ins))
  }

  /** Error.AppendMessage, which works on a copy of the receiver. */
  method AppendMessage(e: Error, ins: seq<string>) returns (r: Error)
    ensures r == Appended(e, ins)
    ensures r.code == e.code && r.data == e.data
    ensures |ins| == 0 ==> r == e
    ensures |ins| == 1 ==> r.message == ins[0]
  {
    r := e;
    var i := 0;
    while i < |ins|
      invariant 0 <= i <= |ins|
      invariant r == Appended(e, ins[..i])
    {
      if i == 0 {
        r := r.(message := ins[i]);
      } else {
        r := r.(message := TrimSpace(r.message + ". " + ins[i]));
      }
      assert ins[..i + 1][..i] == ins[..i];
      i := i + 1;
    }
    assert ins[..|ins|] == ins;
  }

  /** Once AppendMessage has at least one argument, the original message no longer matters. */
  lemma {:induction false} AppendedForgetsMessage(m1: string, m2: string, ins: seq<string>)
    requires |ins| >= 1
    ensures AppendedMessage(m1, ins) == AppendedMessage(m2, ins)
    decreases |ins|
  {
    if |ins| > 1 {
      AppendedForgetsMessage(m1, m2, ins[..|ins| - 1]);
    }
  }

  /** With two or more arguments the message neither starts nor ends with white space. */
  lemma AppendedIsTrimmed(message: string, ins: seq<string>)
    requires |ins| >= 2
    ensures var m := AppendedMessage(message, ins);
            |m| > 0 ==> !IsSpace(m[0]) && !IsSpace(m[|m| - 1])
  {
  }

  /** Appending in two calls is appending once when the second call has arguments. */
  lemma AppendedTwice(e: Error, xs: seq<string>, ys: seq<string>)
    requires |ys| >= 1
    ensures Appended(Appended(e, xs), ys) == Appended(e, ys)
  {
    AppendedForgetsMessage(AppendedMessage(e.message, xs), e.message, ys);
  }

  /** Error.SetData, on a copy: only the data changes. */
  function SetData(e: Error, data: Json): (r: Error)
    ensures r.code == e.code && r.message == e.message && r.data == data
  {
    e.(data := data)
  }

  /** IsEqual: the Error() texts agree or the codes agree. */
  predicate IsEqual(a: GoError, b: GoError) {
    Text(a) == Text(b) || GetCodeFromError(a) == GetCodeFromError(b)
  }

  lemma IsEqualReflexiveSymmetric(a: GoError, b: GoError)
    ensures IsEqual(a, a)
    ensures IsEqual(a, b) <==> IsEqual(b, a)
  {
  }

  /** Two Errors with one code are equal whatever their messages and data. */
  lemma IsEqualSameCode(a: Error, b: Error)
    requires a.code == b.code
    ensures IsEqual(Coded(a), Coded(b))
  {
  }

  /** IsEqual is not transitive: a plain error can bridge two Errors that differ. */
  lemma IsEqualNotTransitive()
    ensures exists a: GoError, b: GoError, c: GoError :: IsEqual(a, b) && IsEqual(b, c) && !IsEqual(a, c)
  {
    var a := Coded(Error("A", "m", Null));
    var b := Coded(Error("A", "n", Null));
    var c := Plain("A: n");
    assert IsEqual(a, b);
    assert Text(b) == "A: n";
    assert IsEqual(b, c);
    assert Text(a) == "A: m";
    assert Text(a) != Text(c);
    assert GetCodeFromError(a) != GetCodeFromError(c);
  }

  // const.go

  const ParamInvalidError := "ParamInvalidError"
  const ThirdPartyError := "ThirdPartyError"

  const ErrorParamInvalid := WithMessage(ParamInvalidError, "param is invalid")
  const ErrorThirdParty := WithMessage(ThirdPartyError, "something's wrong with third party service")

  /** fmt.Errorf(http.StatusText(500)): a plain error. */
  const ErrorInternalServer := Plain("Internal Server Error")

  const StatusBadRequest := 400
  const StatusInternalServerError := 500
  const StatusBadGateway := 502

  const ErrorMappings: map<string, int> := map[ParamInvalidError := StatusBadRequest, ThirdPartyError := StatusBadGateway]

  /**
   * GetStatusCode: an Error's code looked up in ErrorMappings, 0 (the map's zero value) for
   * a code the map does not hold; 500 for any other error.
   */
  function GetStatusCode(g: GoError): (status: int)
    ensures g.Coded? && g.err.code == ParamInvalidError ==> status == 400
    ensures g.Coded? && g.err.code == ThirdPartyError ==> status == 502
    ensures g.Coded? && g.err.code != ParamInvalidError && g.err.code != ThirdPartyError ==> status == 0
    ensures g.Plain? ==> status == 500
  {
    match g
    case Coded(e) => if e.code in ErrorMappings then ErrorMappings[e.code] else 0
    case Plain(_) => StatusInternalServerError
  }

  /** AppendMessage and SetData keep the status an Error maps to. */
  lemma StatusKeptByAppendAndSetData(e: Error, ins: seq<string>, data: Json)
    ensures GetStatusCode(Coded(Appended(e, ins))) == GetStatusCode(Coded(e))
    ensures GetStatusCode(Coded(SetData(e, data))) == GetStatusCode(Coded(e))
  {
  }

  /** The handler's empty-keyword error: ErrorParamInvalid with a message appended is a 400. */
  lemma MissingKeywordIsBadRequest()
    ensures var e := Appended(ErrorParamInvalid, ["q param is necessary."]);
            e.code == ParamInvalidError && e.message == "q param is necessary." && e.data == Null
            && GetStatusCode(Coded(e)) == 400
  {
  }
}
