/**
 * The process-wide tracker state of UniversalAnalytics (its static fields)
 * and the calls that read and update it. One object of the class below
 * stands for the static state; the host reaches it only through these
 * methods.
 *
 * What the model replaces by parameters: whether the network is reachable
 * (Application.internetReachability), the GUID that Initialize generates, and
 * the screen sizes and language that gathering system information queries.
 * The web-player branches are not modelled: the platform is a standalone
 * player, where every hit is posted as a form.
 */
module Analytics {
  import opened Forms
  import opened Text
  import opened Hits

  /** Unity's LogType, as HandleException receives it. */
  datatype LogType = Error | Assert | Warning | Log | Exception

  /** What happened to one hit: posted as `sent`, or dropped as unreachable. */
  ghost predicate Posted(sent: Option<Payload>, reachable: bool, hit: Payload, ctx: Context) {
    && (sent.Some? <==> reachable)
    && (sent.Some? ==> IsPayload(sent.value, hit, ctx))
  }

  // ---------------------------------------------------------------------
  // The client id Initialize records

  /**
   * The client id as Initialize assigns it: the cid field is written only when
   * no client id is supplied, so a supplied id never reaches the field and
   * cid keeps what it held before (null in a fresh process).
   */
  function ClientIdAsWritten(clientId: Option<string>, generatedGuid: string, previous: Option<string>): (cid: Option<string>)
    ensures clientId.None? ==> cid == Some(generatedGuid)
    ensures clientId.Some? ==> cid == previous
  {
    if clientId.None? then Some(generatedGuid) else previous
  }

  /** In a fresh process, an installation id handed to Initialize leaves no client id at all. */
  lemma ClientIdAsWrittenDropsSuppliedId(clientId: string, generatedGuid: string)
    ensures ClientIdAsWritten(Some(clientId), generatedGuid, None) != Some(clientId)
    ensures ClientIdAsWritten(Some(clientId), generatedGuid, None) == None
  {
  }

  /** The client id Initialize is documented to record: the supplied id, or a fresh GUID. */
  function ClientIdFor(clientId: Option<string>, generatedGuid: string): (cid: string)
    ensures clientId.Some? ==> cid == clientId.value
    ensures clientId.None? ==> cid == generatedGuid
  {
    match clientId
    case Some(id) => id
    case None => generatedGuid
  }

  // ---------------------------------------------------------------------
  // The extra arguments of the web-player calls

  /** One dimension in a web-player call: ,'dimension<k>': '<value made safe>'. */
  function DimensionArg(k: int, value: string): (r: string)
    ensures '\n' !in r
  {
    var head, key, mid := ",'dimension", IntToDecimal(k), "': '";
    DecimalSingleLine(k);
    assert '\n' !in head && '\n' !in mid;
    head + key + mid + WebMakeStringSafe(value) + "'"
  }

  /** The dimension piece differs from the one the source builds only where
      the value holds a quote: without one, the two are the same text. */
  lemma DimensionArgAgreesWithoutQuotes(k: int, value: string)
    requires '\'' !in value
    ensures DimensionArg(k, value) == ",'dimension" + IntToDecimal(k) + "': '" + WebMakeStringSafeAsWritten(value) + "'"
  {
    WebMakeStringSafeAgreesWithoutQuotes(value);
  }

  /** One metric in a web-player call: ,'metric<k>': <value>. */
  function MetricArg(k: int, value: int): (r: string)
    ensures '\n' !in r
  {
    var head, key, mid := ",'metric", IntToDecimal(k), "': ";
    DecimalSingleLine(k);
    DecimalSingleLine(value);
    assert '\n' !in head && '\n' !in mid;
    head + key + mid + IntToDecimal(value)
  }

  function DimensionArgs(m: map<int, string>, order: seq<int>): string
    requires forall i :: 0 <= i < |order| ==> order[i] in m
  {
    if order == [] then ""
    else
      var k := order[|order| - 1];
      DimensionArgs(m, order[..|order| - 1]) + DimensionArg(k, m[k])
  }

  function MetricArgs(m: map<int, int>, order: seq<int>): string
    requires forall i :: 0 <= i < |order| ==> order[i] in m
  {
    if order == [] then ""
    else
      var k := order[|order| - 1];
      MetricArgs(m, order[..|order| - 1]) + MetricArg(k, m[k])
  }

  lemma DecimalSingleLine(i: int)
    ensures '\n' !in IntToDecimal(i)
  {
    if i < 0 {
      var n := NatToDecimal(-i);
      assert IntToDecimal(i) == "-" + n;
      assert AllDigits(n) && !IsDigit('\n');
    }
  }

  /** The extra arguments spliced into a web-player call stay on one line,
      whatever the dimension values hold. */
  lemma {:induction false} ExtraArgsSingleLine(dims: map<int, string>, dimensionOrder: seq<int>,
                                               mets: map<int, int>, metricOrder: seq<int>)
    requires forall i :: 0 <= i < |dimensionOrder| ==> dimensionOrder[i] in dims
    requires forall i :: 0 <= i < |metricOrder| ==> metricOrder[i] in mets
    ensures '\n' !in DimensionArgs(dims, dimensionOrder) + MetricArgs(mets, metricOrder)
    decreases |dimensionOrder| + |metricOrder|
  {
    if metricOrder != [] {
      ExtraArgsSingleLine(dims, dimensionOrder, mets, metricOrder[..|metricOrder| - 1]);
    } else if dimensionOrder != [] {
      ExtraArgsSingleLine(dims, dimensionOrder[..|dimensionOrder| - 1], mets, metricOrder);
    }
  }

  lemma DimensionArgsSnoc(m: map<int, string>, order: seq<int>, k: int)
    requires forall i :: 0 <= i < |order| ==> order[i] in m
    requires k in m
    ensures DimensionArgs(m, order + [k]) == DimensionArgs(m, order) + DimensionArg(k, m[k])
  {
    var longer := order + [k];
    assert longer[|longer| - 1] == k;
    assert longer[..|longer| - 1] == order;
  }

  /** The first foreach loop of WebConstructExtraArgs. */
  method DimensionArgsOf(m: map<int, string>) returns (args: string, ghost order: seq<int>)
    ensures Enumerates(order, m.Keys)
    ensures args == DimensionArgs(m, order)
  {
    args := "";
    order := [];
    var pending := m.Keys;
    while pending != {}
      invariant EnumeratesSoFar(order, pending, m.Keys)
      invariant args == DimensionArgs(m, order)
      decreases pending
    {
      EmptyOrMember(pending);
      var k :| k in pending;
      args := args + DimensionArg(k, m[k]);
      DimensionArgsSnoc(m, order, k);
      EnumerationStep(order, pending, m.Keys, k);
      order := order + [k];
      pending := pending - {k};
    }
    EnumerationDone(order, m.Keys);
  }

  /** The second foreach loop of WebConstructExtraArgs. */
  method MetricArgsOf(m: map<int, int>) returns (args: string, ghost order: seq<int>)
    ensures Enumerates(order, m.Keys)
    ensures args == MetricArgs(m, order)
  {
    args := "";
    order := [];
    var pending := m.Keys;
    while pending != {}
      invariant EnumeratesSoFar(order, pending, m.Keys)
      invariant args == MetricArgs(m, order)
      decreases pending
    {
      EmptyOrMember(pending);
      var k :| k in pending;
      args := args + MetricArg(k, m[k]);
      assert (order + [k])[..|order|] == order;
      EnumerationStep(order, pending, m.Keys, k);
      order := order + [k];
      pending := pending - {k};
    }
    EnumerationDone(order, m.Keys);
  }

  /**
   * The foreach loops of SendData: one field `prefix<k>` per entry of the
   * dictionary, appended in the dictionary's enumeration order, which the
   * model leaves open (`order` records the one taken).
   */
  method AddIndexedFields<V>(form: Payload, prefix: string, m: map<int, V>, render: V -> string)
    returns (result: Payload, ghost order: seq<int>)
    ensures Enumerates(order, m.Keys)
    ensures result == form + IndexedFields(prefix, m, order, render)
  {
    result := form;
    order := [];
    var pending := m.Keys;
    while pending != {}
      invariant EnumeratesSoFar(order, pending, m.Keys)
      invariant result == form + IndexedFields(prefix, m, order, render)
      decreases pending
    {
      EmptyOrMember(pending);
      var k :| k in pending;
      result := result + [Field(prefix + IntToDecimal(k), render(m[k]))];
      assert (order + [k])[..|order|] == order;
      EnumerationStep(order, pending, m.Keys, k);
      order := order + [k];
      pending := pending - {k};
    }
    EnumerationDone(order, m.Keys);
  }

  // ---------------------------------------------------------------------
  // The tracker

  class UniversalAnalytics {
    var initialized: bool
    var accountId: string
    var appName: string
    var appVersion: string
    var cid: string
    var screenResolution: string
    var viewportSize: string
    var systemLanguage: string
    var dimensions: map<int, string>
    var metrics: map<int, int>
    var autoExceptionLog: bool
    var gatherSystemInfo: bool
    var uid: Option<string>

    /** Only indices 1..200 are ever stored. */
    ghost predicate Valid()
      reads this
    {
      && (forall k :: k in dimensions ==> ValidIndex(k))
      && (forall k :: k in metrics ==> ValidIndex(k))
    }

    /** What SendData reads from the state. */
    ghost function Snapshot(): Context
      reads this
    {
      Context(accountId, cid, appName, appVersion,
              if gatherSystemInfo then Some(SystemInfo(screenResolution, viewportSize, systemLanguage)) else None,
              dimensions, metrics, uid)
    }

    /** The state of a process that has not called Initialize yet. */
    constructor ()
      ensures Valid() && !initialized
      ensures dimensions == map[] && metrics == map[]
      ensures uid == None && !gatherSystemInfo && !autoExceptionLog
    {
      initialized := false;
      accountId, appName, appVersion, cid := "", "", "", "";
      screenResolution, viewportSize, systemLanguage := "", "", "";
      dimensions, metrics := map[], map[];
      autoExceptionLog, gatherSystemInfo := false, false;
      uid := None;
    }

    /** Records the tracking id, application name and version and the client
        id, once; every later call changes nothing. */
    method Initialize(trackingId: string, applicationName: string, applicationVersion: string,
                      clientId: Option<string>, generatedGuid: string)
      modifies this`initialized, this`accountId, this`appName, this`appVersion, this`cid
      ensures initialized
      ensures old(initialized) ==> unchanged(this)
      ensures !old(initialized) ==>
        && accountId == trackingId && appName == applicationName && appVersion == applicationVersion
        && cid == ClientIdFor(clientId, generatedGuid)
    {
      if initialized {
        return;
      }
      accountId := trackingId;
      appName := applicationName;
      appVersion := applicationVersion;
      cid := ClientIdFor(clientId, generatedGuid);
      initialized := true;
    }

    /** Completes a hit with the context and posts it when the network is
        reachable; either way the dimensions and metrics are consumed. */
    method SendData(data: Payload, reachable: bool) returns (sent: Option<Payload>)
      requires Valid()
      modifies this`dimensions, this`metrics
      ensures Valid() && dimensions == map[] && metrics == map[]
      ensures Posted(sent, reachable, data, old(Snapshot()))
    {
      if !reachable {
        dimensions := map[];
        metrics := map[];
        return None;
      }
      ghost var ctx := Snapshot();
      var form := data;
      form := form + [Field("v", "1")];
      form := form + [Field("tid", accountId)];
      form := form + [Field("cid", cid)];
      form := form + [Field("an", appName)];
      form := form + [Field("av", appVersion)];
      if gatherSystemInfo {
        form := form + [Field("sr", screenResolution)];
        form := form + [Field("vp", viewportSize)];
        form := form + [Field("ul", systemLanguage)];
      }
      assert form == data + DefaultFields(ctx) + SystemFields(ctx.systemInfo);

      ghost var dimensionOrder: seq<int>;
      form, dimensionOrder := AddIndexedFields(form, "cd", dimensions, Identity);
      dimensions := map[];
      ghost var metricOrder: seq<int>;
      form, metricOrder := AddIndexedFields(form, "cm", metrics, IntToDecimal);
      metrics := map[];

      if uid.Some? && uid.value != "" {
        form := form + [Field("uid", uid.value)];
      }
      assert Enumerates(dimensionOrder, ctx.dimensions.Keys) && Enumerates(metricOrder, ctx.metrics.Keys)
        && form == Compose(data, ctx, dimensionOrder, metricOrder);
      sent := Some(form);
    }

    method LogScreenView(screenName: string, reachable: bool) returns (sent: Option<Payload>)
      requires Valid()
      modifies this`dimensions, this`metrics
      ensures Valid()
      ensures !old(initialized) ==> sent == None && dimensions == old(dimensions) && metrics == old(metrics)
      ensures old(initialized) ==>
        && Posted(sent, reachable, ScreenViewHit(screenName), old(Snapshot()))
        && dimensions == map[] && metrics == map[]
    {
      if !initialized {
        return None;
      }
      var data := [];
      data := data + [Field("t", "screenview")];
      data := data + [Field("cd", screenName)];
      assert data == ScreenViewHit(screenName);
      sent := SendData(data, reachable);
    }

    /** Rejects a negative value: nothing is sent and nothing is consumed. */
    method LogEvent(category: string, action: string, eventLabel: string, value: int, reachable: bool)
      returns (sent: Option<Payload>)
      requires Valid()
      modifies this`dimensions, this`metrics
      ensures Valid()
      ensures !old(initialized) || value < 0 ==>
        sent == None && dimensions == old(dimensions) && metrics == old(metrics)
      ensures old(initialized) && value >= 0 ==>
        && Posted(sent, reachable, EventHit(category, action, eventLabel, value), old(Snapshot()))
        && dimensions == map[] && metrics == map[]
    {
      if !initialized {
        return None;
      }
      if value < 0 {
        return None;
      }
      var data := [];
      data := data + [Field("t", "event")];
      data := data + [Field("ec", category)];
      data := data + [Field("ea", action)];
      data := data + [Field("el", eventLabel)];
      data := data + [Field("ev", IntToDecimal(value))];
      assert data == EventHit(category, action, eventLabel, value);
      sent := SendData(data, reachable);
    }

    /** The overload without a label sends an empty label. */
    method LogEventUnlabelled(category: string, action: string, value: int, reachable: bool)
      returns (sent: Option<Payload>)
      requires Valid()
      modifies this`dimensions, this`metrics
      ensures Valid()
      ensures !old(initialized) || value < 0 ==>
        sent == None && dimensions == old(dimensions) && metrics == old(metrics)
      ensures old(initialized) && value >= 0 ==>
        && Posted(sent, reachable, EventHit(category, action, "", value), old(Snapshot()))
        && dimensions == map[] && metrics == map[]
    {
      sent := LogEvent(category, action, "", value, reachable);
    }

    method LogTiming(category: string, variableName: string, timingLabel: string, timeInMS: int, reachable: bool)
      returns (sent: Option<Payload>)
      requires Valid()
      modifies this`dimensions, this`metrics
      ensures Valid()
      ensures !old(initialized) ==> sent == None && dimensions == old(dimensions) && metrics == old(metrics)
      ensures old(initialized) ==>
        && Posted(sent, reachable, TimingHit(category, variableName, timingLabel, timeInMS), old(Snapshot()))
        && dimensions == map[] && metrics == map[]
    {
      if !initialized {
        return None;
      }
      var data := [];
      data := data + [Field("t", "timing")];
      data := data + [Field("utc", category)];
      data := data + [Field("utv", variableName)];
      data := data + [Field("utl", timingLabel)];
      data := data + [Field("utt", IntToDecimal(timeInMS))];
      assert data == TimingHit(category, variableName, timingLabel, timeInMS);
      sent := SendData(data, reachable);
    }

    /** The overload without a label sends an empty label. */
    method LogTimingUnlabelled(category: string, variableName: string, timeInMS: int, reachable: bool)
      returns (sent: Option<Payload>)
      requires Valid()
      modifies this`dimensions, this`metrics
      ensures Valid()
      ensures !old(initialized) ==> sent == None && dimensions == old(dimensions) && metrics == old(metrics)
      ensures old(initialized) ==>
        && Posted(sent, reachable, TimingHit(category, variableName, "", timeInMS), old(Snapshot()))
        && dimensions == map[] && metrics == map[]
    {
      sent := LogTiming(category, variableName, "", timeInMS, reachable);
    }

    /** Sends the description cut to 150 characters and the fatal flag as 1 or 0. */
    method LogException(desc: string, isFatal: bool, reachable: bool) returns (sent: Option<Payload>)
      requires Valid()
      modifies this`dimensions, this`metrics
      ensures Valid()
      ensures !old(initialized) ==> sent == None && dimensions == old(dimensions) && metrics == old(metrics)
      ensures old(initialized) ==>
        && Posted(sent, reachable, ExceptionHit(desc, isFatal), old(Snapshot()))
        && dimensions == map[] && metrics == map[]
    {
      if !initialized {
        return None;
      }
      var description := desc;
      if |description| > ExceptionDescriptionLimit {
        description := description[..ExceptionDescriptionLimit];
      }
      var data := [];
      data := data + [Field("t", "exception")];
      data := data + [Field("exd", description)];
      data := data + [Field("exf", if isFatal then "1" else "0")];
      assert data == ExceptionHit(desc, isFatal);
      sent := SendData(data, reachable);
    }

    /** Stores a custom dimension for the next hit; an index outside 1..200 is refused. */
    method AddDimension(index: int, value: string)
      requires Valid()
      modifies this`dimensions
      ensures Valid()
      ensures dimensions == if old(initialized) && ValidIndex(index) then old(dimensions)[index := value]
                            else old(dimensions)
    {
      if !initialized {
        return;
      }
      if index < 1 || index > 200 {
        return;
      }
      dimensions := dimensions[index := value];
    }

    /** Stores a custom metric for the next hit; an index outside 1..200 is refused. */
    method AddMetric(index: int, value: int)
      requires Valid()
      modifies this`metrics
      ensures Valid()
      ensures metrics == if old(initialized) && ValidIndex(index) then old(metrics)[index := value]
                         else old(metrics)
    {
      if !initialized {
        return;
      }
      if index < 1 || index > 200 {
        return;
      }
      metrics := metrics[index := value];
    }

    /** Builds the extra arguments of a web-player call from the dimensions
        and metrics, and consumes them. */
    method WebConstructExtraArgs() returns (args: string, ghost dimensionOrder: seq<int>, ghost metricOrder: seq<int>)
      requires Valid()
      modifies this`dimensions, this`metrics
      ensures Valid() && dimensions == map[] && metrics == map[]
      ensures Enumerates(dimensionOrder, old(dimensions).Keys) && Enumerates(metricOrder, old(metrics).Keys)
      ensures args == DimensionArgs(old(dimensions), dimensionOrder) + MetricArgs(old(metrics), metricOrder)
    {
      var dimensionArgs, metricArgs;
      dimensionArgs, dimensionOrder := DimensionArgsOf(dimensions);
      dimensions := map[];
      metricArgs, metricOrder := MetricArgsOf(metrics);
      args := dimensionArgs + metricArgs;
      metrics := map[];
    }

    /** The log callback: an exception log entry becomes a non-fatal exception
        hit whose description is the message followed by the stack trace. */
    method HandleException(logString: string, stackTrace: string, logType: LogType, reachable: bool)
      returns (sent: Option<Payload>)
      requires Valid()
      modifies this`dimensions, this`metrics
      ensures Valid()
      ensures logType != Exception || !old(initialized) ==>
        sent == None && dimensions == old(dimensions) && metrics == old(metrics)
      ensures logType == Exception && old(initialized) ==>
        && Posted(sent, reachable, ExceptionHit(logString + stackTrace, false), old(Snapshot()))
        && dimensions == map[] && metrics == map[]
    {
      if logType == Exception {
        sent := LogException(logString + stackTrace, false, reachable);
      } else {
        sent := None;
      }
    }

    /** The autoHandleExceptionLogging setter: ignored before Initialize. */
    method SetAutoHandleExceptionLogging(value: bool)
      modifies this`autoExceptionLog
      ensures autoExceptionLog == if old(initialized) then value else old(autoExceptionLog)
    {
      if !initialized {
        return;
      }
      autoExceptionLog := value;
    }

    /** The gatherSystemInformation setter: the flag is always recorded; after
        Initialize, switching it on also captures the screen size
        ("<width>x<height>"), the current resolution and the language. */
    method SetGatherSystemInformation(value: bool, screenWidth: int, screenHeight: int,
                                      resolutionWidth: int, resolutionHeight: int, language: string)
      modifies this`gatherSystemInfo, this`screenResolution, this`viewportSize, this`systemLanguage
      ensures gatherSystemInfo == value
      ensures old(initialized) && value ==>
        && screenResolution == IntToDecimal(screenWidth) + "x" + IntToDecimal(screenHeight)
        && viewportSize == IntToDecimal(resolutionWidth) + "x" + IntToDecimal(resolutionHeight)
        && systemLanguage == language
      ensures !(old(initialized) && value) ==>
        && screenResolution == old(screenResolution)
        && viewportSize == old(viewportSize)
        && systemLanguage == old(systemLanguage)
    {
      gatherSystemInfo := value;
      if !initialized {
        return;
      }
      if gatherSystemInfo {
        screenResolution := IntToDecimal(screenWidth) + "x" + IntToDecimal(screenHeight);
        viewportSize := IntToDecimal(resolutionWidth) + "x" + IntToDecimal(resolutionHeight);
        systemLanguage := language;
      }
    }

    /** The userId setter: None stands for null; None and "" both switch the user id off. */
    method SetUserId(value: Option<string>)
      modifies this`uid
      ensures uid == value
    {
      uid := value;
    }
  }

  // ---------------------------------------------------------------------
  // Scenario

  /** A custom dimension goes out with the next hit only: the hit after it
      carries no field for that index. */
  method DimensionSentOnce(guid: string)
  {
    var ua := new UniversalAnalytics();
    ua.Initialize("UA-1", "game", "1.0", None, guid);
    ua.AddDimension(3, "level-1");
    var first := ua.LogScreenView("menu", true);
    assert first.Some?;
    assert UsesHitNames(ScreenViewHit("menu"));
    PayloadDimension(first.value, ScreenViewHit("menu"), Context("UA-1", guid, "game", "1.0", None, map[3 := "level-1"], map[], None), 3);
    assert CountNamed(first.value, "cd3") == 1;
    var second := ua.LogScreenView("menu", true);
    PayloadDimension(second.value, ScreenViewHit("menu"), Context("UA-1", guid, "game", "1.0", None, map[], map[], None), 3);
    assert CountNamed(second.value, "cd3") == 0;
  }
}
