# zdlib core in Dafny

This project models the core of zdlib, a small Android library by Zidsoft, and proves properties of the model.

- **ServiceCall** runs a service call once on a background thread pool. It moves the call through PENDING, RUNNING and FINISHED. It keeps a process-wide registry of active calls, keyed by command class key and command key. When the task completes, `done()` sorts the outcome into finished, failed or canceled. It then calls the client and the command on the UI thread.
- **Model** is the base of the library's MVP models. It broadcasts command begin and end notifications to its listeners. It queues them for listeners added later, replays the queue to a new listener, and prunes the queue. It also keeps the last message shown per command.
- The helpers:
  - **ServiceCallResult**, a return code and message, or an exception.
  - **ReferenceCountMap**.
  - **ZDStringUtils**, **ObjectUtils** and **MsgInfo**.
  - **ZDDateUtils**: the display pattern of `formatDate`, and the parsers of dates stored as long numbers.
  - **ServiceCallHttp**: the query, URL and payload of an HTTP call.
  - **LargeTouchAreaView**: its `onLayout` enlarges a child's touch area.

## Layout

The model has one module per Java class, plus three shared modules.

**Shared modules**
- `Lang` models Java null as `Option` and a thrown exception as `Result.Throws`. It also models the exception kinds the library tells apart and `String.trim`.
- `ServiceCallFlow` holds the pure part of `ServiceCall.done()`:
  - the classification function `DoneAsWritten`;
  - the intended classification `DoneIntended`;
  - the callbacks issued for each completion (`Steps`).
- `ActiveCalls` models the registry map as a value.

**Imperative classes**
- Objects whose fields the Java code updates are Dafny classes: `ServiceCall.ServiceCall`, `ServiceCall.Registry`, `Model.Model`, `ReferenceCountMap.ReferenceCountMap`, `ServiceCallResult.ServiceCallResult`, `MsgInfo.MsgInfo`, `ServiceCallHttp.ServiceCallHttp`, `LargeTouchAreaView.LargeTouchAreaView` and `LargeTouchAreaView.Rect`.
- Their methods are proved against the pure functions:
  - The pruned notification queue equals `Cleaned(old queue)`.
  - The registry after `removeActive` equals `Remove(old registry, …)`.
  - The touch delegate's rectangle equals `DelegateBounds(old hit rectangle, …)`.

**Callbacks and outside values**
- Listeners, clients and callbacks are recorded as event or step sequences.
- Callbacks into code outside the core are function parameters:
  - `URLEncoder.encode`;
  - `SimpleDateFormat` format and parse;
  - `compareTo` and `equals`;
  - the result mapper.
- Whether a command is a straggler, and what `doInBackground` produced, are parameters of the method that runs the task.

**Two behaviours of the code worth knowing**

- **Notification queue.** Recording a command's end appends the end notification; it does not prune the command's begin/end pair (`Model.java:114-146`). Only `cleanNotificationQueue` prunes pairs, and the model does the same.
- **Rejected submission.** The executor's rejection handler is empty (`ServiceCall.java:104-113`); its own TODO at `ServiceCall.java:111` says the client should be told the call was canceled, which the code does not do. `ServiceCall.ServiceCall.Exec` with `accepted == false` therefore leaves the call RUNNING and registered, with nothing delivered.

## Model

| member | source | states |
|---|---|---|
| ObjectUtils.Equals | src/com/zidsoft/zdlib/util/ObjectUtils.java:44-49 | two nulls are equal, null and non-null are not, and two non-nulls are equal exactly when their `equals` says so |
| ObjectUtils.NotEqual | src/com/zidsoft/zdlib/util/ObjectUtils.java:57-59 | the negation of `Equals` |
| ObjectUtils.Compare | src/com/zidsoft/zdlib/util/ObjectUtils.java:68-74 | null sorts first (-1 / 1), two nulls compare 0, otherwise the values' `compareTo` |
| ObjectUtils.EqualsSymmetric | src/com/zidsoft/zdlib/util/ObjectUtils.java:44-49 | with a symmetric `equals`, `Equals` is symmetric |
| ObjectUtils.EqualsIsReferenceEquality | src/com/zidsoft/zdlib/util/ObjectUtils.java:44-49 | with identity as `equals`, `Equals` is exactly equality of the nullable values |
| ObjectUtils.CompareAntisymmetric | src/com/zidsoft/zdlib/util/ObjectUtils.java:68-74 | with an antisymmetric `compareTo`, the sign of `Compare(a, b)` is minus that of `Compare(b, a)`, nulls included |
| Lang.Int32 | src/com/zidsoft/zdlib/util/ZDStringUtils.java:83 | Java `int` arithmetic: an `int`, congruent to the exact result modulo 2^32, and the exact result itself when that fits |
| Lang.Int32Shift | src/com/zidsoft/zdlib/util/ZDStringUtils.java:83 | an exact result k*2^32 away from an `int` wraps to that `int` |
| Lang.TrimEmptyIffBlank | src/com/zidsoft/zdlib/service/ServiceCallResult.java:252-256 | `trim()` gives the empty string exactly when every character is at most a space |
| ZDStringUtils.LowerCase | src/com/zidsoft/zdlib/util/ZDStringUtils.java:44-56 | the case fold `compareToIgnoreCase` compares by, character by character, same length |
| ZDStringUtils.IsTrue | src/com/zidsoft/zdlib/util/ZDStringUtils.java:44-56 | null is false; the empty string and every string longer than five characters are true |
| ZDStringUtils.IsTrueCharacterization | src/com/zidsoft/zdlib/util/ZDStringUtils.java:44-56 | a non-null string is true exactly when its case fold is none of "n", "no", "f", "false", "0" |
| ZDStringUtils.IsTrueExamples | src/com/zidsoft/zdlib/util/ZDStringUtils.java:44-56 | null is false; "", "Yes", "1", "nope" are true; "No", "fAlSe", "n" are false |
| ZDStringUtils.ToBoolean | src/com/zidsoft/zdlib/util/ZDStringUtils.java:63-65 | null exactly for null, otherwise `isTrue` |
| ZDStringUtils.ToYesNo | src/com/zidsoft/zdlib/util/ZDStringUtils.java:67-70 | "" for null, "Yes" for true, "No" for false |
| ZDStringUtils.ToYesNoNegated | src/com/zidsoft/zdlib/util/ZDStringUtils.java:71-74 | "" for null, "Yes" for false, "No" for true |
| ZDStringUtils.NegatedIsYesNoOfNegation | src/com/zidsoft/zdlib/util/ZDStringUtils.java:67-74 | `toYesNoNegated(b)` is `toYesNo(!b)`, and both give "" for null |
| ZDStringUtils.YesNoRoundTrip | src/com/zidsoft/zdlib/util/ZDStringUtils.java:63-70 | `toBoolean(toYesNo(b))` gives b back |
| ZDStringUtils.Replace | src/com/zidsoft/zdlib/util/ZDStringUtils.java:88 | `StringBuilder.replace` throws exactly for a negative start, a start past the length or a start past the end; otherwise the prefix, the new text and the rest after the clamped end |
| ZDStringUtils.ParamListShape | src/com/zidsoft/zdlib/util/ZDStringUtils.java:82-90 | the list for n parameters has length 3n, n question marks, and is parenthesised |
| ZDStringUtils.ParamListExamples | src/com/zidsoft/zdlib/util/ZDStringUtils.java:76-90 | one parameter gives "(?)", three give "(?, ?, ?)" |
| ZDStringUtils.ParamListCapacitySign | src/com/zidsoft/zdlib/util/ZDStringUtils.java:83 | the `int` capacity 3*size+2 is negative for -715827883..-1, for 715827882..1431655764 and below -1431655766, where it wraps; 2 for size 0; exact and positive for 1..715827881 |
| ZDStringUtils.CreateParamList | src/com/zidsoft/zdlib/util/ZDStringUtils.java:82-90 | NegativeArraySizeException exactly when the `int` capacity 3*size+2 is negative; StringIndexOutOfBoundsException exactly when it is not and size is below 1; otherwise the parameter list of that size |
| MsgInfo.MsgInfo.Empty | src/com/zidsoft/zdlib/android/MsgInfo.java:46-51 | every field null or 0, so no message |
| MsgInfo.MsgInfo.Copy | src/com/zidsoft/zdlib/android/MsgInfo.java:53-58 | a field-by-field copy with the same `hasMsg` |
| MsgInfo.MsgInfo.constructor | src/com/zidsoft/zdlib/android/MsgInfo.java:60-66 | the four fields as given |
| MsgInfo.MsgInfo.OfText | src/com/zidsoft/zdlib/android/MsgInfo.java:68-70 | an information message without id or flags, which has a message exactly when the text is non-null |
| MsgInfo.MsgInfo.OfType | src/com/zidsoft/zdlib/android/MsgInfo.java:72-74 | text and type as given, no id, no flags |
| MsgInfo.MsgInfo.OfTypeWithId | src/com/zidsoft/zdlib/android/MsgInfo.java:75-77 | text, id and type as given, no flags |
| MsgInfo.MsgInfo.OfTypeWithFlags | src/com/zidsoft/zdlib/android/MsgInfo.java:79-81 | text, type and flags as given, no id |
| MsgInfo.MsgInfo.OfResource | src/com/zidsoft/zdlib/android/MsgInfo.java:83-91 | the resource's text with the resource id as message id, no flags |
| MsgInfo.MsgInfo.Clear | src/com/zidsoft/zdlib/android/MsgInfo.java:93-98 | every field null or 0, so no message |
| MsgInfo.MsgInfo.HasMsg | src/com/zidsoft/zdlib/android/MsgInfo.java:100-102 | true only with a message text, and false without a message type |
| ReferenceCountMap.WithReference | src/com/zidsoft/zdlib/common/ReferenceCountMap.java:54-65 | the key's count goes up by one, or becomes 1 for a new key; no other count changes |
| ReferenceCountMap.WithoutReference | src/com/zidsoft/zdlib/common/ReferenceCountMap.java:72-84 | an absent key changes nothing; a count of 1 drops the key; a higher count goes down by one; no other count changes |
| ReferenceCountMap.PositivePreserved | src/com/zidsoft/zdlib/common/ReferenceCountMap.java:54-84 | both updates keep every count positive |
| ReferenceCountMap.RemoveUndoesAdd | src/com/zidsoft/zdlib/common/ReferenceCountMap.java:54-84 | removing a reference undoes adding one |
| ReferenceCountMap.BalancedReferences | src/com/zidsoft/zdlib/common/ReferenceCountMap.java:54-84 | n additions followed by n removals of a key give the map back |
| ReferenceCountMap.ReferenceCountMap.AddReference | src/com/zidsoft/zdlib/common/ReferenceCountMap.java:54-65 | the counts become `WithReference`; `onInitialAdd` is called exactly when the key was absent |
| ReferenceCountMap.ReferenceCountMap.RemoveReference | src/com/zidsoft/zdlib/common/ReferenceCountMap.java:72-84 | the counts become `WithoutReference`; no initial add |
| ServiceCallResult.ExpectOne | src/com/zidsoft/zdlib/service/ServiceCallResult.java:96-117 | code 0 exactly for one row, SQL_NO_DATA_FOUND exactly for none, FAILURE with a message otherwise |
| ServiceCallResult.ExpectExactly | src/com/zidsoft/zdlib/service/ServiceCallResult.java:119-136 | code 0 exactly when the count is as expected, SQL_NO_DATA_FOUND for an unexpected 0, FAILURE with a message otherwise |
| ServiceCallResult.ExpectOneOrMore | src/com/zidsoft/zdlib/service/ServiceCallResult.java:138-153 | code 0 exactly for a positive count, SQL_NO_DATA_FOUND for 0, FAILURE with a message for a negative one |
| ServiceCallResult.FromResponseCode | src/com/zidsoft/zdlib/service/ServiceCallResult.java:155-167 | code 0 without message exactly for HTTP 200, FAILURE with a message otherwise |
| ServiceCallResult.ClassificationsAreNotCanceled | src/com/zidsoft/zdlib/service/ServiceCallResult.java:96-171 | no classification of a row count or response code reads as canceled |
| ServiceCallResult.ExpectExactlyOneIsExpectOne | src/com/zidsoft/zdlib/service/ServiceCallResult.java:96-136 | expecting exactly one row gives the same code as expecting one |
| ServiceCallResult.ChooseMessage | src/com/zidsoft/zdlib/service/ServiceCallResult.java:252-256 | a null or blank message yields the default, any other message itself |
| ServiceCallResult.ReturnInfo.IsCanceled | src/com/zidsoft/zdlib/service/ServiceCallResult.java:169-171 | true exactly for the return code -99 |
| ServiceCallResult.GetMessageNeverBlank | src/com/zidsoft/zdlib/service/ServiceCallResult.java:252-256 | the chosen message is never blank unless it is the default, and differs from the default only when it is the stored message |
| ServiceCallResult.ServiceCallResult.constructor | src/com/zidsoft/zdlib/service/ServiceCallResult.java:182-185 | no exception, no return info, not canceled |
| ServiceCallResult.ServiceCallResult.WithCode | src/com/zidsoft/zdlib/service/ServiceCallResult.java:187-189 | return info with that code and no message |
| ServiceCallResult.ServiceCallResult.WithCodeAndMessage | src/com/zidsoft/zdlib/service/ServiceCallResult.java:191-194 | return info with that code and message |
| ServiceCallResult.ServiceCallResult.FromException | src/com/zidsoft/zdlib/service/ServiceCallResult.java:196-209 | the exception kept, FAILURE with the exception's text |
| ServiceCallResult.ServiceCallResult.FromThrowable | src/com/zidsoft/zdlib/service/ServiceCallResult.java:211-213 | the throwable wrapped in an Exception, FAILURE with its text |
| ServiceCallResult.ServiceCallResult.SetCanceled | src/com/zidsoft/zdlib/service/ServiceCallResult.java:219-225 | return info becomes CANCELED with "Canceled", the exception is kept, and it reads as canceled |
| ServiceCallResult.ServiceCallResult.IsCanceled | src/com/zidsoft/zdlib/service/ServiceCallResult.java:215-217 | false for a null return info, otherwise the return info's own `isCanceled` |
| ServiceCallResult.ServiceCallResult.SetResultFrom | src/com/zidsoft/zdlib/service/ServiceCallResult.java:226-229 | both fields taken from the other result |
| ServiceCallResult.ServiceCallResult.SetReturnInfo | src/com/zidsoft/zdlib/service/ServiceCallResult.java:231-234 | the return info as given, the exception cleared |
| ServiceCallResult.ServiceCallResult.SetException | src/com/zidsoft/zdlib/service/ServiceCallResult.java:236-239 | the exception and FAILURE with its text, not canceled |
| ServiceCallResult.ServiceCallResult.SetThrowable | src/com/zidsoft/zdlib/service/ServiceCallResult.java:241-244 | the wrapped throwable and FAILURE with its text, not canceled |
| ServiceCallResult.ServiceCallResult.GetMessage | src/com/zidsoft/zdlib/service/ServiceCallResult.java:252-256 | NullPointerException exactly when there is no return info, otherwise `ChooseMessage` of its message |
| ServiceCallHttp.Pieces | src/com/zidsoft/zdlib/service/ServiceCallHttp.java:155-160 | one "name=value" piece per parameter, in order, a null value encoded as "" |
| ServiceCallHttp.IndexOf | src/com/zidsoft/zdlib/service/ServiceCallHttp.java:161 | the first position of the separator, -1 exactly when it is absent |
| ServiceCallHttp.SplitJoin | src/com/zidsoft/zdlib/service/ServiceCallHttp.java:161 | `TextUtils.join` with a separator no piece contains can be split back into the pieces |
| ServiceCallHttp.QueryRoundTrip | src/com/zidsoft/zdlib/service/ServiceCallHttp.java:149-162 | with an encoder that escapes "&" and "=", the query splits back into its pieces and each piece into the encoded name and value |
| ServiceCallHttp.ServiceCallHttp.constructor | src/com/zidsoft/zdlib/service/ServiceCallHttp.java:63-87 | path and name as given, GET, both timeouts 60000 ms |
| ServiceCallHttp.ServiceCallHttp.Overriding | src/com/zidsoft/zdlib/service/ServiceCallHttp.java:125 | a subclass that overrides `isPost`: path, name and method as given |
| ServiceCallHttp.ServiceCallHttp.SetConnectTimeout | src/com/zidsoft/zdlib/service/ServiceCallHttp.java:110-112 | only the connect timeout changes |
| ServiceCallHttp.ServiceCallHttp.SetReadTimeout | src/com/zidsoft/zdlib/service/ServiceCallHttp.java:121-123 | only the read timeout changes |
| ServiceCallHttp.ServiceCallHttp.GetQuery | src/com/zidsoft/zdlib/service/ServiceCallHttp.java:149-162 | null exactly for null or empty parameters, otherwise the pieces joined with "&" |
| ServiceCallHttp.ServiceCallHttp.GetPostPayload | src/com/zidsoft/zdlib/service/ServiceCallHttp.java:133-135 | the query, as `getQuery` builds it |
| ServiceCallHttp.ServiceCallHttp.GetURL | src/com/zidsoft/zdlib/service/ServiceCallHttp.java:164-170 | base url + path + "/" + name, with "?" and the query only for a GET with parameters |
| ZDDateUtils.FormatPattern | src/com/zidsoft/zdlib/util/ZDDateUtils.java:68-89 | DATE beats DATETIME beats TIME; the year is dropped only for DATE or DATETIME with the year omitted; no flag gives the full date and time |
| ZDDateUtils.FormatDate | src/com/zidsoft/zdlib/util/ZDDateUtils.java:68-89 | a null date is "" or, with NULL_REPLACEMENT, "--/--/----"; another date is rendered with the chosen pattern |
| ZDDateUtils.PatternsPicked | src/com/zidsoft/zdlib/util/ZDDateUtils.java:68-89 | only five patterns can be chosen; the two-digit year patterns are dead code |
| ZDDateUtils.YearShown | src/com/zidsoft/zdlib/util/ZDDateUtils.java:68-89 | the year shows exactly for a date or date-time not omitting it, or with no format flag at all |
| ZDDateUtils.PatternIgnoresOtherFlags | src/com/zidsoft/zdlib/util/ZDDateUtils.java:68-89 | only DATE, DATETIME and TIME choose the pattern |
| ZDDateUtils.TimePatternIgnoresYear | src/com/zidsoft/zdlib/util/ZDDateUtils.java:68-89 | a time-only pattern does not depend on the year |
| ZDDateUtils.DecimalRoundTrip | src/com/zidsoft/zdlib/util/ZDDateUtils.java:158-177 | the decimal text of a Long reads back as the number |
| ZDDateUtils.GetDateTimeFromLong | src/com/zidsoft/zdlib/util/ZDDateUtils.java:149-154 | null passes through; otherwise a ParseException exactly when the yyyyMMddHHmmss parse fails, else the parsed date |
| ZDDateUtils.GetDateFromLong | src/com/zidsoft/zdlib/util/ZDDateUtils.java:182-187 | the same with yyyyMMdd |
| ZDDateUtils.GetDateTimeFromLongNumber | src/com/zidsoft/zdlib/util/ZDDateUtils.java:158-163 | null passes through; otherwise the String overload on the number's decimal text |
| ZDDateUtils.GetDateFromLongNumber | src/com/zidsoft/zdlib/util/ZDDateUtils.java:172-177 | the same for dates |
| ZDDateUtils.GetDateTimeFromLongSafe | src/com/zidsoft/zdlib/util/ZDDateUtils.java:113-123 | null exactly for null input or a failed parse, otherwise what the throwing version returns |
| ZDDateUtils.GetDateFromLongSafe | src/com/zidsoft/zdlib/util/ZDDateUtils.java:128-138 | the same for dates |
| ZDDateUtils.SafeAgreesOnSuccess | src/com/zidsoft/zdlib/util/ZDDateUtils.java:113-154 | the safe version returns whatever the throwing version returns |
| ZDDateUtils.NumberOverloadsReadDistinctTexts | src/com/zidsoft/zdlib/util/ZDDateUtils.java:158-187 | different numbers give different texts to parse |
| LargeTouchAreaView.Rect.Enlarge | src/com/zidsoft/zdlib/android/LargeTouchAreaView.java:97-106 | the rectangle becomes `Enlarged` of itself |
| LargeTouchAreaView.Rect.MoveToEdges | src/com/zidsoft/zdlib/android/LargeTouchAreaView.java:108-121 | each flagged edge moves to the same edge of the view |
| LargeTouchAreaView.View.GetHitRect | src/com/zidsoft/zdlib/android/LargeTouchAreaView.java:94-96 | the out rectangle receives the hit rectangle |
| LargeTouchAreaView.EnlargedReachesMinimum | src/com/zidsoft/zdlib/android/LargeTouchAreaView.java:97-106 | a too small side grows to the minimum (one less for an odd shortfall) and stays centred; a large enough side is untouched |
| LargeTouchAreaView.EnlargedContainsHit | src/com/zidsoft/zdlib/android/LargeTouchAreaView.java:97-106 | the enlarged rectangle contains the hit rectangle |
| LargeTouchAreaView.FlagsActOnTheirEdge | src/com/zidsoft/zdlib/android/LargeTouchAreaView.java:108-121 | each flag decides exactly its own edge |
| LargeTouchAreaView.AllFlagsCoverTheView | src/com/zidsoft/zdlib/android/LargeTouchAreaView.java:108-121 | with all four flags the touch area is the whole view |
| LargeTouchAreaView.LargeTouchAreaView.constructor | src/com/zidsoft/zdlib/android/LargeTouchAreaView.java:56-85 | minimum sizes from resources, no delegate view, not debugging, the default debug colour |
| LargeTouchAreaView.LargeTouchAreaView.OnLayout | src/com/zidsoft/zdlib/android/LargeTouchAreaView.java:88-124 | nothing without a delegate view; otherwise a fresh rectangle equal to `DelegateBounds` is remembered and shared with a fresh TouchDelegate for the view |
| LargeTouchAreaView.LargeTouchAreaView.SetTouchDelegateDebug | src/com/zidsoft/zdlib/android/LargeTouchAreaView.java:138-142 | debug flag and colour as given |
| LargeTouchAreaView.LargeTouchAreaView.SetTouchDelegateDebugDefault | src/com/zidsoft/zdlib/android/LargeTouchAreaView.java:143-145 | debug flag as given, the default colour |
| LargeTouchAreaView.LargeTouchAreaView.IsDebug | src/com/zidsoft/zdlib/android/LargeTouchAreaView.java:137 | the debug flag last set |
| LargeTouchAreaView.LargeTouchAreaView.SetTouchDelegateView | src/com/zidsoft/zdlib/android/LargeTouchAreaView.java:156-159 | view and flags as given, used from the next layout |
| LargeTouchAreaView.LargeTouchAreaView.SetTouchDelegateViewDefault | src/com/zidsoft/zdlib/android/LargeTouchAreaView.java:160-162 | view as given, no flags |
| Model.NoteEquals | src/com/zidsoft/zdlib/mvp/Model.java:80-85 | a notification equals exactly a non-null notification with the same command and states |
| Model.HashCode | src/com/zidsoft/zdlib/mvp/Model.java:75-77 | the 32-bit OR of the parts keeps every bit of the command's hash and of the old state's hash |
| Model.EqualNotesHashEqually | src/com/zidsoft/zdlib/mvp/Model.java:75-85 | equal notifications have equal hash codes |
| Model.RemoveFirst | src/com/zidsoft/zdlib/mvp/Model.java:139-140 | `Queue.remove(o)` drops one element when present, nothing otherwise |
| Model.RemoveFirstMultiset | src/com/zidsoft/zdlib/mvp/Model.java:139-140 | it removes exactly one occurrence |
| Model.RemoveFirstCount | src/com/zidsoft/zdlib/mvp/Model.java:139-140 | the removed notification occurs once less, if it occurred at all; every other notification as often as before |
| Model.AutoPopRestoresQueue | src/com/zidsoft/zdlib/mvp/Model.java:103-146 | for an auto-pop command, begin then end leaves the queue as before |
| Model.CleanedCounts | src/com/zidsoft/zdlib/mvp/Model.java:250-272 | a cleaned queue holds no end, and max(0, begins - ends) begins per command |
| Model.CleanedKeepsOthers | src/com/zidsoft/zdlib/mvp/Model.java:250-272 | every other notification is kept as often as it was |
| Model.CleanedKeepsOrder | src/com/zidsoft/zdlib/mvp/Model.java:250-272 | the cleaned queue is a subsequence of the queue |
| Model.CleanedForgetsFinishedCommand | src/com/zidsoft/zdlib/mvp/Model.java:250-272 | a begin/end pair of a command not otherwise queued is cleaned away completely |
| Model.CleanQueue | src/com/zidsoft/zdlib/mvp/Model.java:250-272 | the two loops compute `Cleaned` |
| Model.Replay | src/com/zidsoft/zdlib/mvp/Model.java:185-193 | one replayed notification per queued one, in queue order |
| Model.Model.constructor | src/com/zidsoft/zdlib/mvp/Model.java:60-182 | no delayed listener support, an empty queue, no listeners, no messages |
| Model.Model.SetDelayedListenerSupported | src/com/zidsoft/zdlib/mvp/Model.java:175-177 | only the flag changes |
| Model.Model.IsDelayedListenerSupported | src/com/zidsoft/zdlib/mvp/Model.java:172-174 | the delayed-listener flag, which `setDelayedListenerSupported` sets |
| Model.Model.OnExecBegin | src/com/zidsoft/zdlib/mvp/Model.java:103-111 | the begin is broadcast, and queued exactly with delayed listener support |
| Model.Model.OnExecEnd | src/com/zidsoft/zdlib/mvp/Model.java:114-146 | the end is broadcast when there are listeners; with delayed support an auto-pop or straggler command drops its begin, another queues the end |
| Model.Model.AddModelChangeListener | src/com/zidsoft/zdlib/mvp/Model.java:184-198 | the listener joins, and only a new listener is replayed the whole queue |
| Model.Model.RemoveModelChangeListener | src/com/zidsoft/zdlib/mvp/Model.java:200-202 | only the listener set changes |
| Model.Model.CleanNotificationQueue | src/com/zidsoft/zdlib/mvp/Model.java:250-272 | the queue becomes `Cleaned` of itself, nothing else changes |
| Model.Model.ClearLastMessages | src/com/zidsoft/zdlib/mvp/Model.java:274-276 | no message is kept |
| Model.Model.ClearLastMessage | src/com/zidsoft/zdlib/mvp/Model.java:278-280 | that command's message is gone, the others kept |
| Model.Model.GetLastMessage | src/com/zidsoft/zdlib/mvp/Model.java:282-284 | the stored message, null for a command without one |
| Model.Model.SetLastMessage | src/com/zidsoft/zdlib/mvp/Model.java:294-296 | that command's message becomes the given one, every other is unchanged |
| Model.Model.GetLastMessageWithFlags | src/com/zidsoft/zdlib/mvp/Model.java:286-292 | the stored message, with the flags or-ed into it and its other fields unchanged |
| ActiveCalls.IsActiveCommand | src/com/zidsoft/zdlib/service/ServiceCall.java:587-592 | true exactly when some call is registered for the class and command key |
| ActiveCalls.HasActiveCommand | src/com/zidsoft/zdlib/service/ServiceCall.java:599-602 | true only for a class in the registry, and, in a well-formed registry, for every class in it |
| ActiveCalls.HasActiveIffSomeKeyActive | src/com/zidsoft/zdlib/service/ServiceCall.java:587-602 | in a well-formed registry a class has an active command exactly when one of its keys is active |
| ActiveCalls.WithCall | src/com/zidsoft/zdlib/service/ServiceCall.java:472-490 | the call joins its key's set, created as needed; nothing else changes |
| ActiveCalls.Remove | src/com/zidsoft/zdlib/service/ServiceCall.java:505-546 | a class not in the registry changes nothing; no class is added; listeners are handed back only when the class is dropped, and they are exactly its end-active listeners |
| ActiveCalls.RemoveOnlyThatCall | src/com/zidsoft/zdlib/service/ServiceCall.java:505-546 | removeActive takes out that call and nothing else: every other call stays, no other class appears or disappears, and every class left keeps its end-active listeners |
| ActiveCalls.WellFormedPreserved | src/com/zidsoft/zdlib/service/ServiceCall.java:472-546 | both updates leave no empty key set and no class without keys |
| ActiveCalls.RemoveNotifiesWhenIdle | src/com/zidsoft/zdlib/service/ServiceCall.java:505-546 | the class is dropped, and its listeners handed back, exactly when its last call goes |
| ActiveCalls.AddThenRemove | src/com/zidsoft/zdlib/service/ServiceCall.java:472-546 | registering and removing a new call gives the registry back, with nobody notified |
| ActiveCalls.AddMakesActive | src/com/zidsoft/zdlib/service/ServiceCall.java:472-490 | after addActive the command and its class are active |
| ActiveCalls.WithListener | src/com/zidsoft/zdlib/service/ServiceCall.java:560-572 | a class without active commands is unchanged; otherwise the listener joins the class's set |
| ActiveCalls.WithListenerKeepsCalls | src/com/zidsoft/zdlib/service/ServiceCall.java:560-572 | adding a listener changes no registered call |
| ActiveCalls.ListenerNotifiedAtIdle | src/com/zidsoft/zdlib/service/ServiceCall.java:505-579 | a listener added to a busy class is handed back when its last call is removed |
| ServiceCall.NotifiedNobody | src/com/zidsoft/zdlib/service/ServiceCall.java:520-541 | with no listener to notify, removeActive says nothing |
| ServiceCall.Registry.AddActive | src/com/zidsoft/zdlib/service/ServiceCall.java:472-503 | the registry becomes `WithCall` and the command's onExecBegin is issued; nothing for a null command |
| ServiceCall.Registry.RemoveActive | src/com/zidsoft/zdlib/service/ServiceCall.java:505-546 | the registry becomes `Remove`, and each listener handed back gets exactly one onEndActive |
| ServiceCall.NotifiedOneMore | src/com/zidsoft/zdlib/service/ServiceCall.java:533-537 | each onEndActive sent extends what has been said by that one listener |
| ServiceCall.Registry.NotifyEndActive | src/com/zidsoft/zdlib/service/ServiceCall.java:527-539 | one onEndActive event per listener of the snapshot |
| ServiceCall.Registry.AddEndActiveListener | src/com/zidsoft/zdlib/service/ServiceCall.java:560-579 | true exactly when the class has an active command, and then the listener is registered and sent onEndActiveListenBegin |
| ServiceCall.Registry.IsActive | src/com/zidsoft/zdlib/service/ServiceCall.java:587-592 | some call is registered for the class and key |
| ServiceCall.Registry.HasActive | src/com/zidsoft/zdlib/service/ServiceCall.java:599-602 | some key of the class has a registered call |
| ServiceCall.RankOrder | src/com/zidsoft/zdlib/service/ServiceCall.java:63-80 | PENDING comes first and FINISHED last |
| ServiceCall.ServiceCall.GetStatus | src/com/zidsoft/zdlib/service/ServiceCall.java:315-317 | the current status |
| ServiceCall.ServiceCall.SetMapper | src/com/zidsoft/zdlib/service/ServiceCall.java:319-321 | only the mapper changes |
| ServiceCall.ServiceCall.IsStraggler | src/com/zidsoft/zdlib/service/ServiceCall.java:468-470 | a straggler exactly when there is a command and it says so |
| ServiceCall.ServiceCall.IsCancelled | src/com/zidsoft/zdlib/service/ServiceCall.java:332-334 | the task was cancelled, and a cancelled call is FINISHED |
| ServiceCall.ServiceCall.AlreadyStarted | src/com/zidsoft/zdlib/service/ServiceCall.java:412-421 | no exception exactly when PENDING, otherwise IllegalStateException with the running or executed message |
| ServiceCall.ServiceCall.constructor | src/com/zidsoft/zdlib/service/ServiceCall.java:208-308 | PENDING, no result, client or mapper, task not run |
| ServiceCall.ServiceCall.Exec | src/com/zidsoft/zdlib/service/ServiceCall.java:410-442 | a started call throws and changes nothing; otherwise RUNNING, the client kept, registered, onExecBegin issued, and queued only when the pool accepts it |
| ServiceCall.ServiceCall.Done | src/com/zidsoft/zdlib/service/ServiceCall.java:222-302 | FINISHED; when `DoneAsWritten` aborts, a null result, no callback and the call left registered; otherwise the steps of the completion, the final result and the call removed |
| ServiceCall.ServiceCall.Run | src/com/zidsoft/zdlib/service/ServiceCall.java:210-302 | a cancelled task does nothing; a straggler at start cancels itself with nothing delivered; otherwise done()'s outcome, the worker crashing exactly when done() aborts |
| ServiceCall.ServiceCall.ExecImmediate | src/com/zidsoft/zdlib/service/ServiceCall.java:444-466 | a started call throws; a straggler at the start of `call()` gets null, with `onPostExecute(null)` if it is no straggler after the run; an aborting done() makes it throw NullPointerException; otherwise the result, with onPostExecute after removeActive unless a straggler after the run |
| ServiceCall.ServiceCall.RunImmediate | src/com/zidsoft/zdlib/service/ServiceCall.java:459-465 | once registered: a straggler at start gets null; an aborting done() throws NullPointerException; otherwise the mapped result, the registry entry removed, its listeners told, and onPostExecute unless the command is a straggler after the run |
| ServiceCall.ServiceCall.CancelOwnTask | src/com/zidsoft/zdlib/service/ServiceCall.java:213-216 | a straggler at start: the task cancelled, m_result null, nothing delivered and the registry untouched; `onPostExecute(null)` only when no straggler after the run |
| ServiceCall.ServiceCall.Cancel | src/com/zidsoft/zdlib/service/ServiceCall.java:357-359 | a task not run is cancelled and NullPointerException escapes, the call staying registered; otherwise false and nothing changes |
| ServiceCall.ExecThenDeliverRestoresRegistry | src/com/zidsoft/zdlib/service/ServiceCall.java:424-546 | a registered call removed on delivery leaves the registry as it was |
| ServiceCallFlow.CanceledValue | src/com/zidsoft/zdlib/service/ServiceCallResult.java:219-225 | marking a result canceled keeps its exception and makes it read as canceled |
| ServiceCallFlow.IsCanceledMatches | src/com/zidsoft/zdlib/service/ServiceCallResult.java:215-217 | `IsCanceledValue` on an object's contents is the object's `isCanceled` |
| ServiceCallFlow.SetCanceledMatches | src/com/zidsoft/zdlib/service/ServiceCallResult.java:219-225 | `setCanceled` turns an object's contents into `CanceledValue` of them |
| ServiceCallFlow.SetExceptionMatches | src/com/zidsoft/zdlib/service/ServiceCallResult.java:236-239 | `setResult(Exception)` turns an object's contents into `ExceptionValue` |
| ServiceCallFlow.SetThrowableMatches | src/com/zidsoft/zdlib/service/ServiceCallResult.java:241-244 | `setResult(Throwable)` turns an object's contents into `ThrowableValue` |
| ServiceCallFlow.ExceptionValue | src/com/zidsoft/zdlib/service/ServiceCallResult.java:236-239 | the exception and FAILURE, never canceled |
| ServiceCallFlow.ThrowableValue | src/com/zidsoft/zdlib/service/ServiceCallResult.java:241-244 | the wrapped throwable as an exception result |
| ServiceCallFlow.MapResult | src/com/zidsoft/zdlib/service/ServiceCall.java:258-268 | no mapper keeps the result, a mapper's result replaces it, a throwing mapper makes a failure |
| ServiceCallFlow.DoneAsWritten | src/com/zidsoft/zdlib/service/ServiceCall.java:222-256 | a completion is delivered exactly for a returned non-null result, a failure when it carries an exception; nothing is ever classified canceled |
| ServiceCallFlow.DoneIntended | src/com/zidsoft/zdlib/service/ServiceCall.java:233-256 | cancellation gives a canceled result, interruption and task exceptions a failure with that exception, returned results as written |
| ServiceCallFlow.CancelledIsNeverDelivered | src/com/zidsoft/zdlib/service/ServiceCall.java:224-236 | as written a cancelled task is never delivered; as intended it is delivered canceled |
| ServiceCallFlow.IntendedDiffersOnlyOnThrownOutcomes | src/com/zidsoft/zdlib/service/ServiceCall.java:222-256 | the two differ exactly on outcomes where get() throws, which only the intended version delivers |
| ServiceCallFlow.DoneClassification | src/com/zidsoft/zdlib/service/ServiceCall.java:222-268 | failed exactly for an exception or a throwing mapper, canceled exactly for a cancellation, succeeded exactly otherwise for a returned result |
| ServiceCallFlow.Steps | src/com/zidsoft/zdlib/service/ServiceCall.java:139-302 | nothing for an aborted done(); otherwise onDone then removeActive come first |
| ServiceCallFlow.PostedShape | src/com/zidsoft/zdlib/service/ServiceCall.java:139-302 | the posted callbacks neither remove again nor call onDone again |
| ServiceCallFlow.PostedCounts | src/com/zidsoft/zdlib/service/ServiceCall.java:139-302 | the posted callbacks hold exactly one client callback when there is a client, none otherwise, and no second onDone or removeActive |
| ServiceCallFlow.OneCallbackPerCompletion | src/com/zidsoft/zdlib/service/ServiceCall.java:139-302 | onDone and removeActive exactly once, and exactly one client callback exactly when there is a client |
| ServiceCallFlow.ExecEndComesLast | src/com/zidsoft/zdlib/service/ServiceCall.java:139-302 | with a command its onExecEnd comes once and last; without one never |
| ServiceCallFlow.StragglerIsCanceled | src/com/zidsoft/zdlib/service/ServiceCall.java:146-148 | a straggler's client is told canceled with a canceled result, without onPostExecute or the connectivity message |
| ServiceCallFlow.DeliveredAsClassified | src/com/zidsoft/zdlib/service/ServiceCall.java:139-302 | otherwise the client hears the classification, a finished call after onPostExecute |
| ServiceCallFlow.ConnectivityMessage | src/com/zidsoft/zdlib/service/ServiceCall.java:139-182 | the no-connectivity message shows exactly for a failure from a missing network, unless a straggler's client is told canceled |

## Left out

- Threads are not modelled. This covers the pool and its workers, the lock helper thread of `exec(lock, client)`, the UI-thread `Handler` and `isMainThread`. The effect of each operation is one atomic step, and posted runnables run in the order they are posted. `ServiceCall.ServiceCall.Exec` stands for both `exec` overloads; the lock is not modelled.
- `synchronized (m_mapActive)` and the unsynchronised reads in `isActiveCommand` and `hasActiveCommand` are not modelled, since there is no concurrency in the model.
- `ServiceCall.ServiceCall.Run`: `doInBackground` is a parameter (its returned result or its exception), as is the command's `isStraggler()` at start and at delivery. Subclass hooks are steps in the trace: `onDone`, `onPostExecute`, and the client and command callbacks. `onPreExecute` has no step.
- `ServiceCall.ServiceCall.Cancel`: `mayInterruptIfRunning` and the interrupt are not modelled. A task is either not run yet or done, because its run is one atomic step.
- The registry is a `Registry` object passed to each call, not a static field.
- `HashSet` iteration order is unspecified. `ServiceCall.Registry.NotifyEndActive` therefore states the events sent, not their order.
- `Model.Model.OnExecEnd` does not model the error-dialog branch. That branch runs when there are no listeners and the last message is an error; it needs the current activity and `MsgFragment`. The property changes carry the notification, not the `PropertyChangeEvent` object.
- `Model.Model` keeps its notification queue as a sequence. `ConcurrentLinkedQueue` thread safety is not modelled.
- `ReferenceCountMap.ReferenceCountMap` does not model the weak keys of `WeakHashMap`, which garbage collection clears. Counts are unbounded integers: `Integer` overflow after 2^31 references is not modelled. `onInitialAdd` is recorded as a list of keys.
- `ZDStringUtils.CreateParamList`: running out of memory is not modelled. For sizes from 1431655765 up, where the capacity wraps back positive, and for other sizes too large for the heap, Java throws OutOfMemoryError while the model returns the list.
- `ServiceCall.ServiceCall.ExecImmediate`: the interrupt that `cancel(true)` sends to the calling thread is not modelled.
- `ZDStringUtils.LowerCase` folds only ASCII letters. `compareToIgnoreCase` folds all of Unicode.
- `ServiceCallResult.ExpectOne`, `ExpectExactly`, `ExpectOneOrMore` and `FromResponseCode` keep the `MessageFormat` template as the message. The substitution of the numbers is not modelled. `makeDeleteException` is not part of this model.
- In the ServiceCallResult model, `ReturnInfo` is a value. In Java, `setResult(res)` shares the other result's `ReturnInfo` object, and that aliasing is not modelled.
- `ZDDateUtils.FormatDate`: `SimpleDateFormat`, the `Calendar` year lookup and the current date are parameters. `getDateWithoutTime` is not modelled, because it is calendar arithmetic on the local time zone.
- `ZDDateUtils.GetDateTimeFromLong` and its siblings take the parse through a parameter that returns null where `SimpleDateFormat` throws `ParseException`.
- `ServiceCallHttp.ServiceCallHttp`:
  - `URLEncoder.encode` is a parameter, and its `UnsupportedEncodingException` is not modelled.
  - `getParameters` is an argument.
  - `getServerBaseUrl` comes from the application and is an argument.
  - `java.net.URL` is not modelled: `GetURL` returns the text, without `MalformedURLException`.
  - A null parameter name is not modelled, since names are strings. In Java, `URLEncoder.encode(null)` throws.
  - `doInBackground`, `readStream`, `configureRequestProperties` and the HTTP connection are I/O and are not modelled.
- `LargeTouchAreaView.LargeTouchAreaView`: `dispatchDraw` (drawing) is not modelled. The views, `Rect` and `TouchDelegate` are reduced to the fields `onLayout` uses. Coordinates are unbounded integers.
- `ServiceCallFlow.MapResult`: a mapper that returns null is not modelled. The mapper returns a result or throws.
- `ServiceCallDb`, `JSONUtils`, `MsgFragment`, `NoConnectivityMsgFragment`, `Presenter` and `ZDApplication` are not part of this model. They are context (database calls, JSON helpers and UI).

## Findings

| source | as written | input that shows it | evidently intended | confidence | as-written member | corrected member |
|---|---|---|---|---|---|---|
| src/com/zidsoft/zdlib/service/ServiceCall.java:222-256 | `done()` sets `m_result` to null before `get()`. So every catch branch (cancellation, interruption, execution exception, other throwable) calls a method on null. A `doInBackground` that returns null throws at the `exception` check, and its catch dereferences null again. | a task cancelled before it runs (`cancel(true)`, or a straggler at start): `DoneAsWritten(Cancelled, mapper) == Aborted`. The same holds for a `doInBackground` that throws: the call then stays registered, no client or command callback is issued, `cancel` throws NullPointerException, and `execImmediate` throws NullPointerException. | the catch branches fill in a fresh result: canceled for a cancellation, a failure carrying the exception for the others. The client and command are then told. | not executed | ServiceCallFlow.DoneAsWritten, ServiceCallFlow.CancelledIsNeverDelivered | ServiceCallFlow.DoneIntended, ServiceCallFlow.DoneClassification |

The `ServiceCall` class follows the code as written, so its contracts show the consequences above. The delivery lemmas about `Steps` (`PostedCounts`, `OneCallbackPerCompletion`, `ExecEndComesLast`, `StragglerIsCanceled`, `DeliveredAsClassified`, `ConnectivityMessage`) are stated for any completion. They therefore hold for the corrected `DoneIntended` as well.
