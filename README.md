# Universal Analytics for Unity: a Dafny model

This project models the client side of a Google Analytics (Measurement
Protocol) tracker for Unity games. It covers the two classes that make up
the tracker's core:

- `UniversalAnalytics` holds the tracker's process-wide state. That state is
  the tracking id, the app name and version, the client id, the system
  information, the pending custom dimensions and metrics, and the user id.
  The class builds the hit forms (screen view, event, timing, exception).
  `SendData` completes each hit with the state and posts it.
- `UA.LogQueue` is a MonoBehaviour that queues hits whose request failed.
  Once per frame it sends again the entries at the head of the queue that
  share the head's frame.

Layout:

- `forms.dfy` (`Forms`): a `WWWForm` as an ordered list of name/value
  fields. `AddField` appends, and `CountNamed` counts the fields with a
  given name.
- `text.dfy` (`Text`): .NET's decimal rendering of integers and its inverse.
  It also models `Char.IsWhiteSpace` and the .NET 4 `String.Trim`, one-character
  `Replace`, and `WebMakeStringSafe`.
- `hits.dfy` (`Hits`): the hit builders, and `Compose`, the form `SendData`
  posts for a hit in a given state. The lemmas say which fields such a form
  holds and how many times each occurs.
- `universal_analytics.dfy` (`Analytics`): one object of class
  `UniversalAnalytics` stands for the static state. The calls are methods
  that update it.
- `log_queue.dfy` (`UA`): class `LogQueue`, whose `logs` field is a `seq`.
  `Queue` appends to it, `Update` drains it, and the end of a send queues a
  failure.

Each call is proved against a specification function.
- A posted hit satisfies `IsPayload(p, hit, ctx)`. That means `p` is the
  hit's own fields, then `v`, `tid`, `cid`, `an`, `av`, then `sr`, `vp`,
  `ul` when system information is gathered. Then come one `cd<k>` per
  dimension and one `cm<k>` per metric, in the dictionary's enumeration
  order. Last comes `uid` when a user id is set.
- The enumeration order is left open. It appears as a ghost order that
  lists every key exactly once.
- The new queue after `Update` is the old queue without its first
  `GroupLength` entries. The attempts started are `Resend` of those
  entries.

Environment inputs become parameters:
- `reachable` stands for `Application.internetReachability`.
- `generatedGuid` stands for `Guid.NewGuid()`.
- Screen sizes and language come in as parameters.
- `frame` and `now` stand for `Time.frameCount` and
  `Time.realtimeSinceStartup`. `now` is in whole milliseconds.
- `failed` stands for the outcome of the HTTP request.

The platform is fixed to a standalone player (`Application.isWebPlayer` is
false). `WebConstructExtraArgs` and `WebMakeStringSafe` are still modelled
as functions of the state.

Behaviour of the code that the model keeps:
- `UniversalAnalytics.SendData` never hands a hit to `LogQueue`. It posts
  and forgets. When the network is unreachable the hit is dropped. Either
  way the dimensions and metrics are cleared.
- `LogQueue.Update` removes the run of entries at the head of the queue
  that share the head's frame, and stops at the first entry with another
  frame. Entries further back that carry the head's frame wait for a later
  `Update`.
- A form that is re-sent gains a `qt` field in place. A re-sent entry that
  fails again is therefore queued with its extra `qt` field, and every
  further failure adds another one.

## Model

| member | source | states |
|---|---|---|
| Text.IntToDecimal | Assets/UA/UniversalAnalytics.cs:149 | the rendering of an int is non-empty, starts with '-' exactly for negatives, and otherwise is all digits; the digits carry no leading zero, so only 0 renders as "0" |
| Text.IntToDecimalRoundTrip | Assets/UA/UniversalAnalytics.cs:149 | parsing the rendering of any int gives it back |
| Text.PrefixedDecimalInjective | Assets/UA/UniversalAnalytics.cs:318-328 | distinct indices give distinct "cd"/"cm" field names |
| Text.TrimStart | Assets/UA/UniversalAnalytics.cs:378 | the result is a suffix of the input, all removed characters are white space, and it does not start with white space |
| Text.TrimEnd | Assets/UA/UniversalAnalytics.cs:378 | the result is a prefix of the input, all removed characters are white space, and it does not end with white space |
| Text.Trim | Assets/UA/UniversalAnalytics.cs:378 | the result has no white space at either end and holds only characters of the input |
| Text.TrimRemovesOnlyOuterWhiteSpace | Assets/UA/UniversalAnalytics.cs:378 | Trim's result is an infix of the input and everything outside it is white space |
| Text.ReplaceChar | Assets/UA/UniversalAnalytics.cs:376-377 | if the replacement does not contain the character, the result does not contain it either |
| Text.ReplaceCharBySelf | Assets/UA/UniversalAnalytics.cs:376 | replacing a character by itself changes nothing |
| Text.RemoveChar | Assets/UA/UniversalAnalytics.cs:377 | the result holds exactly the input's characters other than the removed one |
| Text.RemoveCharCounts | Assets/UA/UniversalAnalytics.cs:377 | every other character is kept as often as it occurs, and the removed one not at all |
| Text.RemoveCharOne | Assets/UA/UniversalAnalytics.cs:377 | a single character is removed if it is the given one and kept otherwise; with RemoveCharAppend this fixes the result, in order |
| Text.ReplaceQuoteEscapes | Assets/UA/UniversalAnalytics.cs:376 | replacing each quote by backslash-quote leaves every quote escaped |
| Text.RemoveCharKeepsEscapes | Assets/UA/UniversalAnalytics.cs:377 | removing line feeds keeps every quote escaped |
| Text.TrimKeepsEscapes | Assets/UA/UniversalAnalytics.cs:378 | trimming keeps every quote escaped |
| Text.WebMakeStringSafeAsWritten | Assets/UA/UniversalAnalytics.cs:374-381 | the function as written: no line feed and no outer white space, and the result equals trimming with line feeds removed, so quotes are left as they are |
| Text.WebMakeStringSafeAsWrittenLeavesQuote | Assets/UA/UniversalAnalytics.cs:376 | a lone quote comes out unescaped |
| Text.ReplaceCharAbsent | Assets/UA/UniversalAnalytics.cs:376 | replacing a character that does not occur changes nothing |
| Text.WebMakeStringSafeAgreesWithoutQuotes | Assets/UA/UniversalAnalytics.cs:374-381 | on text without a quote, the written and the intended WebMakeStringSafe give the same result |
| Text.ReplaceCharAppend | Assets/UA/UniversalAnalytics.cs:376 | one-character Replace distributes over concatenation |
| Text.RemoveCharAppend | Assets/UA/UniversalAnalytics.cs:377 | removing a character distributes over concatenation |
| Text.UnescapeEscape | Assets/UA/UniversalAnalytics.cs:376 | dropping the backslash before each quote reads back any text whose quotes were escaped |
| Text.RemoveLineFeedsEscape | Assets/UA/UniversalAnalytics.cs:376-377 | dropping line feeds and escaping quotes give the same text in either order |
| Text.TrimStartEscape | Assets/UA/UniversalAnalytics.cs:376-378 | trimming the start and escaping quotes give the same text in either order |
| Text.TrimEndEscape | Assets/UA/UniversalAnalytics.cs:376-378 | trimming the end and escaping quotes give the same text in either order |
| Text.WebMakeStringSafe | Assets/UA/UniversalAnalytics.cs:374-381 | with the intended escape: no line feed, no outer white space, every quote preceded by a backslash; the result is the written function's result with each quote escaped and nothing else changed, and Unescape gives the written result back |
| Hits.TruncateDescription | Assets/UA/UniversalAnalytics.cs:217-222 | the description sent is its first min(150, length) characters, and is unchanged when at most 150 long |
| Hits.PayloadRequiredFields | Assets/UA/UniversalAnalytics.cs:304-309 | a posted form begins with the hit's fields followed by v=1, tid, cid, an, av, each of those names occurring exactly once |
| Hits.PayloadSystemInfo | Assets/UA/UniversalAnalytics.cs:311-316 | sr, vp and ul occur exactly once with the stored values when system information is gathered, and not at all otherwise |
| Hits.PayloadDimension | Assets/UA/UniversalAnalytics.cs:318-321 | field cd<k> occurs exactly once, with the stored value, when dimension k is set, and never otherwise |
| Hits.PayloadMetric | Assets/UA/UniversalAnalytics.cs:325-328 | field cm<k> occurs exactly once, with the stored value in decimal, when metric k is set, and never otherwise |
| Hits.PayloadUserId | Assets/UA/UniversalAnalytics.cs:332-335 | uid occurs exactly once when the user id is neither null nor empty, and not at all otherwise |
| Hits.PayloadLength | Assets/UA/UniversalAnalytics.cs:304-335 | the form's length is the hit's fields plus 5, plus 3 with system information, plus one per dimension and per metric, plus one for a user id |
| Analytics.ClientIdAsWritten | Assets/UA/UniversalAnalytics.cs:53-57 | as written: a GUID is recorded when no client id is given, and a supplied id leaves the previous cid in place |
| Analytics.ClientIdAsWrittenDropsSuppliedId | Assets/UA/UniversalAnalytics.cs:53-57 | in a fresh process a supplied client id leaves cid null, not the supplied id |
| Analytics.ClientIdFor | Assets/UA/UniversalAnalytics.cs:33 | the documented client id: the supplied id, or the generated GUID when none is supplied |
| Analytics.AddIndexedFields | Assets/UA/UniversalAnalytics.cs:318-328 | the foreach loop appends one field per dictionary entry, in an order that lists every key exactly once |
| Analytics.DimensionArg | Assets/UA/UniversalAnalytics.cs:390 | one dimension's piece of a web-player call never contains a line feed |
| Analytics.DimensionArgAgreesWithoutQuotes | Assets/UA/UniversalAnalytics.cs:390 | for a value without a quote, the modelled dimension piece is exactly the text the source builds with the written WebMakeStringSafe |
| Analytics.MetricArg | Assets/UA/UniversalAnalytics.cs:397 | one metric's piece of a web-player call never contains a line feed |
| Analytics.DimensionArgsOf | Assets/UA/UniversalAnalytics.cs:388-391 | one ",'dimension<k>': '<safe value>'" piece per dimension, every key exactly once |
| Analytics.MetricArgsOf | Assets/UA/UniversalAnalytics.cs:395-398 | one ",'metric<k>': <value>" piece per metric, every key exactly once |
| Analytics.ExtraArgsSingleLine | Assets/UA/UniversalAnalytics.cs:383-403 | the extra arguments never contain a line feed, whatever the dimension values hold |
| Analytics.UniversalAnalytics.constructor | Assets/UA/UniversalAnalytics.cs:17-18 | a fresh process is uninitialized, with no dimensions, metrics or user id, and with both flags off |
| Analytics.UniversalAnalytics.Initialize | Assets/UA/UniversalAnalytics.cs:38-79 | the first call records the tracking id, name, version and client id, and marks the tracker initialized; every later call changes nothing |
| Analytics.UniversalAnalytics.SendData | Assets/UA/UniversalAnalytics.cs:290-338 | when reachable, posts exactly a form satisfying IsPayload for the hit and the state before the call; when unreachable, posts nothing; either way dimensions and metrics are cleared |
| Analytics.UniversalAnalytics.LogScreenView | Assets/UA/UniversalAnalytics.cs:81-105 | before Initialize nothing happens; after it a screenview hit (t, cd) goes through SendData |
| Analytics.UniversalAnalytics.LogEvent | Assets/UA/UniversalAnalytics.cs:110-153 | before Initialize or with a negative value nothing is sent or consumed; otherwise an event hit (t, ec, ea, el, ev) goes through SendData |
| Analytics.UniversalAnalytics.LogEventUnlabelled | Assets/UA/UniversalAnalytics.cs:155-158 | as LogEvent with an empty label |
| Analytics.UniversalAnalytics.LogTiming | Assets/UA/UniversalAnalytics.cs:164-200 | before Initialize nothing happens; after it a timing hit (t, utc, utv, utl, utt) goes through SendData |
| Analytics.UniversalAnalytics.LogTimingUnlabelled | Assets/UA/UniversalAnalytics.cs:202-205 | as LogTiming with an empty label |
| Analytics.UniversalAnalytics.LogException | Assets/UA/UniversalAnalytics.cs:210-250 | before Initialize nothing happens; after it an exception hit with the truncated description and exf 1 or 0 goes through SendData |
| Analytics.UniversalAnalytics.AddDimension | Assets/UA/UniversalAnalytics.cs:255-269 | stores the value under the index exactly when initialized and the index is in 1..200; otherwise the dimensions are unchanged |
| Analytics.UniversalAnalytics.AddMetric | Assets/UA/UniversalAnalytics.cs:274-288 | stores the value under the index exactly when initialized and the index is in 1..200; otherwise the metrics are unchanged |
| Analytics.UniversalAnalytics.WebConstructExtraArgs | Assets/UA/UniversalAnalytics.cs:383-403 | returns the dimension pieces followed by the metric pieces of the state before the call, and clears both dictionaries |
| Analytics.UniversalAnalytics.HandleException | Assets/UA/UniversalAnalytics.cs:405-412 | only an Exception log entry produces a hit: a non-fatal exception with message followed by stack trace; other log types change nothing |
| Analytics.UniversalAnalytics.SetAutoHandleExceptionLogging | Assets/UA/UniversalAnalytics.cs:418-442 | the flag is recorded only after Initialize |
| Analytics.UniversalAnalytics.SetGatherSystemInformation | Assets/UA/UniversalAnalytics.cs:448-479 | the flag is always recorded; switching it on after Initialize captures "<w>x<h>" screen and resolution sizes and the language; otherwise those stay as they were |
| Analytics.UniversalAnalytics.SetUserId | Assets/UA/UniversalAnalytics.cs:492-522 | the user id is recorded whatever the state |
| UA.WholeSeconds | Assets/UA/LogQueue.cs:35 | the int cast of an elapsed time in seconds: truncation toward zero, within one second of the elapsed time |
| UA.QueueTimeAsWritten | Assets/UA/LogQueue.cs:35 | as written, qt is a multiple of 1000 and up to 999 ms short of the elapsed time |
| UA.QueueTimeAsWrittenDropsMilliseconds | Assets/UA/LogQueue.cs:35 | a hit queued 1500 ms ago reports qt 1000 |
| UA.QueueTimeAsWrittenAgrees | Assets/UA/LogQueue.cs:35 | the written and intended queue times agree exactly when the elapsed time is a whole number of seconds |
| UA.QueueTime | Assets/UA/LogQueue.cs:35 | the intended qt: the original time plus qt is the current time |
| UA.WithQueueTime | Assets/UA/LogQueue.cs:35 | AddField("qt", n) keeps the form and appends one qt field that reads back as n, so the form holds one more qt field |
| UA.RunLength | Assets/UA/LogQueue.cs:32-43 | the longest prefix whose entries all have the given frame: every entry in it has the frame and the next one does not |
| UA.GroupLength | Assets/UA/LogQueue.cs:21-43 | zero exactly for an empty queue; otherwise the maximal run sharing the head's frame |
| UA.Resend | Assets/UA/LogQueue.cs:34-36 | one attempt per removed entry, in order: each starts on the current frame, keeps its original time and carries the form with a qt field |
| UA.Groups | Assets/UA/LogQueue.cs:19-45 | the groups that successive Updates take are non-empty |
| UA.GroupsDrainInOrder | Assets/UA/LogQueue.cs:19-45 | successive Updates hand out every queued entry exactly once in queue order, in at most as many rounds as entries |
| UA.GroupsSplitByFrame | Assets/UA/LogQueue.cs:24-43 | every group shares one frame, and consecutive groups differ in frame |
| UA.LogQueue.constructor | Assets/UA/LogQueue.cs:9 | a new queue is empty |
| UA.LogQueue.Queue | Assets/UA/LogQueue.cs:47-54 | appends exactly one entry with the given form, frame and time at the tail; earlier entries stay as they were |
| UA.LogQueue.SendData | Assets/UA/LogQueue.cs:56-59 | a fresh send starts an attempt with the form, the current frame and the current time |
| UA.LogQueue.FinishSendWebData | Assets/UA/LogQueue.cs:61-77 | a failed attempt is queued once with its starting frame and original time; a successful one leaves the queue unchanged |
| UA.LogQueue.Update | Assets/UA/LogQueue.cs:19-45 | removes exactly the first GroupLength entries (none from an empty queue, at least one otherwise) and re-sends them in order with qt added; the new head, if any, has another frame |

## Left out

- The web-player branches (`Application.ExternalEval` with the `ga(...)` calls). The platform is fixed to a standalone player. `WebMakeStringSafe` and `WebConstructExtraArgs` are still modelled.
- The HTTP request (`new WWW`, `yield return www`) and coroutine scheduling. A send returns the form it would post. The outcome of a `LogQueue` attempt is a parameter of `FinishSendWebData`.
- `Debug.Log`/`Debug.LogWarning`, `logToConsole` and `LogDimensionsAndMetrics`. They only write to the console.
- `Application.RegisterLogCallback` in the `autoHandleExceptionLogging` setter, because it registers a foreign callback. The autoHandleExceptionLogging getter is private and returns only the flag.
- Floating-point time. `now` and `time` are whole milliseconds, so the model cannot show float rounding.
- UA.QueueTimeAsWritten: integers are unbounded, but `(int)(...) * 1000` at Assets/UA/LogQueue.cs:35 is 32-bit C# arithmetic. Once more than 2,147,483 s have elapsed the product wraps, and "a multiple of 1000, within 999 ms below the elapsed time" no longer describes the program.
- C# default arguments. Callers of the model pass every argument.
- Null string arguments. The model's strings are never null; only the user id and the client id are `Option`. `LogException(null)` after `Initialize` throws at Assets/UA/UniversalAnalytics.cs:218 (`desc.Length`). `AddDimension(k, null)` is accepted at Assets/UA/UniversalAnalytics.cs:268, and `WebConstructExtraArgs` then throws at Assets/UA/UniversalAnalytics.cs:376. Neither exception is modelled.
- Analytics.UniversalAnalytics.constructor: the C# string fields start as null, but the model starts them as "". With system information switched on before `Initialize`, `AddField` is passed null for `sr`/`vp`/`ul` (Assets/UA/UniversalAnalytics.cs:313-315). The same happens for `cid` at Assets/UA/UniversalAnalytics.cs:307 after a client id is supplied. What `WWWForm` does with a null value is not part of this model.
- Hits.TruncateDescription: counts Dafny characters. C#'s `String.Length` and `Substring` count UTF-16 code units, so the two differ on characters outside the Basic Multilingual Plane.
- Text.IsWhiteSpace: follows `Char.IsWhiteSpace`, which is the set `String.Trim` removes from .NET Framework 4 on. The .NET 3.5-era runtime of older Unity players trims a different set: it also removes U+200B and U+FEFF, and it keeps U+202F and U+205F. That set is not modelled, nor is the rest of the Unicode database.
- Analytics.UniversalAnalytics.Initialize: records the documented client id (`ClientIdFor`), not the one the code assigns; see Findings.
- UA.LogQueue.Update: adds the intended millisecond queue time (`QueueTime`), not the whole-second value the code computes; see Findings.
- UA.Resend: carries the intended `QueueTime`, where Assets/UA/LogQueue.cs:35 computes whole seconds times 1000 (`QueueTimeAsWritten`). The two agree exactly when the elapsed time is a whole number of seconds (`QueueTimeAsWrittenAgrees`); see Findings.
- Analytics.DimensionArg: escapes the value with the intended `WebMakeStringSafe`, while Assets/UA/UniversalAnalytics.cs:390 uses the written one, whose quote replacement does nothing. For the value `'` the source builds `,'dimension1': '''` and the model `,'dimension1': '\''`. Without a quote in the value the two agree (`DimensionArgAgreesWithoutQuotes`); see Findings.
- Analytics.DimensionArgsOf: builds on `DimensionArg`, so it carries the same intended escape.
- Analytics.UniversalAnalytics.WebConstructExtraArgs: builds on `DimensionArgsOf`, so it carries the same intended escape.

## Findings

| source | as written | input that shows it | evidently intended | confidence | as-written member | corrected member |
|---|---|---|---|---|---|---|
| Assets/UA/UniversalAnalytics.cs:53-57 | `cid` is assigned only when `clientId == null`, so a supplied client id is ignored | `Initialize("UA-1", "app", "1.0", "install-42")` in a fresh process leaves `cid` null | record the supplied id, and a GUID only when none is given, as the comment at line 33 says | not executed | Analytics.ClientIdAsWrittenDropsSuppliedId | Analytics.ClientIdFor |
| Assets/UA/UniversalAnalytics.cs:376 | `s.Replace("'", "\'")` replaces a quote by a quote, because `"\'"` is a one-character C# string | `WebMakeStringSafe("'")` returns `'` unescaped | escape each quote as backslash-quote (`"\\'"`) | not executed | Text.WebMakeStringSafeAsWrittenLeavesQuote | Text.WebMakeStringSafe |
| Assets/UA/LogQueue.cs:35 | `(int)(Time.realtimeSinceStartup - log.time) * 1000` casts the elapsed seconds to int before scaling | an entry first sent 1.5 s ago gets qt 1000 | qt in milliseconds: scale before the cast, as `(int)(Time.realtimeSinceStartup * 1000)` does in Assets/Example.cs:83 | not executed | UA.QueueTimeAsWrittenDropsMilliseconds | UA.QueueTime |
