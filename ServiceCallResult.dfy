/** The result of a service call (com.zidsoft.zdlib.service.ServiceCallResult):
    an optional exception and an optional return code with message. */
module ServiceCallResult {
  import opened Lang

  /** ReturnInfo.SQL_NO_DATA_FOUND. */
  const SQL_NO_DATA_FOUND: int := 100
  /** ReturnInfo.CANCELED. */
  const CANCELED: int := -99
  /** The return code of every failure the library classifies itself. */
  const FAILURE: int := -1

  /** The MessageFormat templates of the failure messages. The counts are
      substituted by MessageFormat, which is not modelled; the message is the
      template itself, and all that matters to the callers is that it is not null. */
  const MSG_EXPECT_ONE: string := "Number of rows affected {0, number} is more tha one row"
  const MSG_EXPECT_EXACTLY: string := "Expected {1, number} rows to be affected; number of rows affected was {0, number}"
  const MSG_EXPECT_ONE_OR_MORE: string := "Number of rows affected {0, number} is not one or more rows"
  const MSG_HTTP: string := "HTTP responseCode: {0, number}, {1}"
  const MSG_CANCELED: string := "Canceled"

  /** ServiceCallResult.ReturnInfo: a return code and an optional message. */
  datatype ReturnInfo = ReturnInfo(returnCode: int, message: Option<string>) {
    /** ReturnInfo.isCanceled. */
    predicate IsCanceled()
      ensures IsCanceled() <==> returnCode == -99
    {
      returnCode == CANCELED
    }
  }

  /** ReturnInfo.setCanceled, as the value the record holds afterwards. */
  const CanceledInfo: ReturnInfo := ReturnInfo(CANCELED, Some(MSG_CANCELED))

  /** ReturnInfo(CountAffectedExpectOne): success is exactly one row affected. */
  function ExpectOne(count: int): (r: ReturnInfo)
    ensures r.returnCode == 0 <==> count == 1
    ensures r.returnCode == SQL_NO_DATA_FOUND <==> count == 0
    ensures r.returnCode == FAILURE <==> count != 0 && count != 1
    ensures r.message.None? <==> r.returnCode != FAILURE
  {
    match count
    case 1 => ReturnInfo(0, None)
    case 0 => ReturnInfo(SQL_NO_DATA_FOUND, None)
    case _ => ReturnInfo(FAILURE, Some(MSG_EXPECT_ONE))
  }

  /** ReturnInfo(CountAffectedExpectExactly): success is the expected number
      of rows; that test comes first, so expecting 0 and affecting 0 succeeds. */
  function ExpectExactly(countAffected: int, countExpected: int): (r: ReturnInfo)
    ensures r.returnCode == 0 <==> countAffected == countExpected
    ensures r.returnCode == SQL_NO_DATA_FOUND <==> countAffected != countExpected && countAffected == 0
    ensures r.returnCode == FAILURE <==> countAffected != countExpected && countAffected != 0
    ensures r.message.None? <==> r.returnCode != FAILURE
  {
    if countAffected == countExpected then ReturnInfo(0, None)
    else if countAffected == 0 then ReturnInfo(SQL_NO_DATA_FOUND, None)
    else ReturnInfo(FAILURE, Some(MSG_EXPECT_EXACTLY))
  }

  /** ReturnInfo(CountAffectedExpectOneOrMore): success is at least one row. */
  function ExpectOneOrMore(count: int): (r: ReturnInfo)
    ensures r.returnCode == 0 <==> count >= 1
    ensures r.returnCode == SQL_NO_DATA_FOUND <==> count == 0
    ensures r.returnCode == FAILURE <==> count < 0
    ensures r.message.None? <==> r.returnCode != FAILURE
  {
    if count >= 1 then ReturnInfo(0, None)
    else if count == 0 then ReturnInfo(SQL_NO_DATA_FOUND, None)
    else ReturnInfo(FAILURE, Some(MSG_EXPECT_ONE_OR_MORE))
  }

  /** ReturnInfo(ResponseCode, String): HTTP 200 is success, anything else a failure. */
  function FromResponseCode(responseCode: int, responseMessage: Option<string>): (r: ReturnInfo)
    ensures r.returnCode == 0 <==> responseCode == 200
    ensures r.returnCode == FAILURE <==> responseCode != 200
    ensures r.message.None? <==> responseCode == 200
  {
    if responseCode == 200 then ReturnInfo(0, None) else ReturnInfo(FAILURE, Some(MSG_HTTP))
  }

  /** None of the classifications can be mistaken for a cancellation. */
  lemma ClassificationsAreNotCanceled(count: int, expected: int, responseCode: int, message: Option<string>)
    ensures !ExpectOne(count).IsCanceled() && !ExpectExactly(count, expected).IsCanceled()
    ensures !ExpectOneOrMore(count).IsCanceled() && !FromResponseCode(responseCode, message).IsCanceled()
  {
  }

  /** The row-count classifications agree where their success rules meet:
      expecting exactly one is expecting one. */
  lemma ExpectExactlyOneIsExpectOne(count: int)
    ensures ExpectExactly(count, 1).returnCode == ExpectOne(count).returnCode
  {
  }

  /** The text that ServiceCallResult.getMessage gives back. */
  function ChooseMessage(message: Option<string>, defaultMsg: Option<string>): (r: Option<string>)
    ensures message.None? ==> r == defaultMsg
    ensures message.Some? && IsBlank(message.value) ==> r == defaultMsg
    ensures message.Some? && !IsBlank(message.value) ==> r == message
  {
    TrimEmptyIffBlank(if message.Some? then message.value else "");
    if message.None? || |Trim(message.value)| == 0 then defaultMsg else message
  }

  class ServiceCallResult {
    /** The exception the call ended with, if any. */
    var exception: Option<JavaException>
    /** The return code and message, if any. */
    var returnInfo: Option<ReturnInfo>

    /** ServiceCallResult(): no exception, no return code. */
    constructor ()
      ensures exception.None? && returnInfo.None?
      ensures !IsCanceled()
    {
      exception, returnInfo := None, None;
    }

    /** ServiceCallResult(int). */
    constructor WithCode(returnCode: int)
      ensures exception.None? && returnInfo == Some(ReturnInfo(returnCode, None))
    {
      exception, returnInfo := None, Some(ReturnInfo(returnCode, None));
    }

    /** ServiceCallResult(int, String). */
    constructor WithCodeAndMessage(returnCode: int, message: Option<string>)
      ensures exception.None? && returnInfo == Some(ReturnInfo(returnCode, message))
    {
      exception, returnInfo := None, Some(ReturnInfo(returnCode, message));
    }

    /** ServiceCallResult(InterruptedException), (ExecutionException) and
        (Exception): the three bodies are the same. */
    constructor FromException(e: JavaException)
      ensures exception == Some(e) && returnInfo == Some(ReturnInfo(FAILURE, Some(e.text)))
    {
      exception, returnInfo := Some(e), Some(ReturnInfo(FAILURE, Some(e.text)));
    }

    /** ServiceCallResult(Throwable): delegates to setResult(Throwable). */
    constructor FromThrowable(t: JavaException)
      ensures exception == Some(WrapThrowable(t))
      ensures returnInfo == Some(ReturnInfo(FAILURE, Some(WrapThrowable(t).text)))
    {
      exception := Some(WrapThrowable(t));
      returnInfo := Some(ReturnInfo(FAILURE, Some(WrapThrowable(t).text)));
    }

    /** ServiceCallResult.isCanceled: a null returnInfo is not canceled. */
    predicate IsCanceled()
      reads this
      ensures IsCanceled() <==> returnInfo.Some? && returnInfo.value.IsCanceled()
    {
      returnInfo.Some? && returnInfo.value.returnCode == CANCELED
    }

    /** ServiceCallResult.setCanceled: creates the return info when there is
        none, otherwise marks the existing one canceled; either way the code
        is CANCELED and the message "Canceled". The exception is kept. */
    method SetCanceled()
      modifies this
      ensures returnInfo == Some(CanceledInfo) && exception == old(exception)
      ensures IsCanceled()
    {
      if returnInfo.None? {
        returnInfo := Some(ReturnInfo(CANCELED, Some(MSG_CANCELED)));
      } else {
        returnInfo := Some(returnInfo.value.(returnCode := CANCELED, message := Some(MSG_CANCELED)));
      }
    }

    /** setResult(ServiceCallResult): take over the other result's fields. */
    method SetResultFrom(res: ServiceCallResult)
      modifies this
      ensures exception == old(res.exception) && returnInfo == old(res.returnInfo)
    {
      exception, returnInfo := res.exception, res.returnInfo;
    }

    /** setResult(ReturnInfo): a new return info and no exception. */
    method SetReturnInfo(info: Option<ReturnInfo>)
      modifies this
      ensures exception.None? && returnInfo == info
    {
      exception, returnInfo := None, info;
    }

    /** setResult(Exception): the exception, code -1 and its text as message. */
    method SetException(e: JavaException)
      modifies this
      ensures exception == Some(e) && returnInfo == Some(ReturnInfo(FAILURE, Some(e.text)))
      ensures !IsCanceled()
    {
      exception := Some(e);
      returnInfo := Some(ReturnInfo(FAILURE, Some(e.text)));
    }

    /** setResult(Throwable): wraps the throwable in a new Exception first. */
    method SetThrowable(t: JavaException)
      modifies this
      ensures exception == Some(WrapThrowable(t)) && exception.value.kind == Generic
      ensures returnInfo == Some(ReturnInfo(FAILURE, Some(WrapThrowable(t).text)))
      ensures !IsCanceled()
    {
      exception := Some(WrapThrowable(t));
      returnInfo := Some(ReturnInfo(FAILURE, Some(exception.value.text)));
    }

    /** ServiceCallResult.getMessage: the message unless it is null or blank
        after trimming, the default then; a null returnInfo is dereferenced. */
    function GetMessage(defaultMsg: Option<string>): (r: Result<Option<string>>)
      reads this
      ensures returnInfo.None? <==> r == Throws(NullPointer)
      ensures returnInfo.Some? ==> r == Ok(ChooseMessage(returnInfo.value.message, defaultMsg))
    {
      if returnInfo.None? then Throws(NullPointer)
      else Ok(ChooseMessage(returnInfo.value.message, defaultMsg))
    }
  }

  /** What getMessage returns, when it returns: never a blank message of the
      result, and the default only when the result has nothing to say. */
  lemma GetMessageNeverBlank(message: Option<string>, defaultMsg: Option<string>)
    ensures var r := ChooseMessage(message, defaultMsg);
      (r == defaultMsg || (r == message && !IsBlank(message.value)))
    ensures ChooseMessage(message, defaultMsg) != defaultMsg ==> message.Some? && ChooseMessage(message, defaultMsg) == message
  {
  }
}
