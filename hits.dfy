/**
 * The Measurement Protocol hits that UniversalAnalytics posts: the fields
 * each Log* call contributes, the fields SendData adds from the per-process
 * context, and what a finished payload therefore contains.
 */
module Hits {
  import opened Forms
  import opened Text

  /** UA_EXCEPTION_DESC_LIMIT: the longest exception description sent. */
  const ExceptionDescriptionLimit: nat := 150

  /** Custom dimension and metric indices accepted by AddDimension and AddMetric. */
  predicate ValidIndex(index: int) { 1 <= index <= 200 }

  // ---------------------------------------------------------------------
  // Hit fields, one builder per Log* call

  function ScreenViewHit(screenName: string): Payload {
    [Field("t", "screenview"), Field("cd", screenName)]
  }

  function EventHit(category: string, action: string, eventLabel: string, value: int): Payload {
    [Field("t", "event"), Field("ec", category), Field("ea", action), Field("el", eventLabel),
     Field("ev", IntToDecimal(value))]
  }

  function TimingHit(category: string, variableName: string, timingLabel: string, timeInMS: int): Payload {
    [Field("t", "timing"), Field("utc", category), Field("utv", variableName), Field("utl", timingLabel),
     Field("utt", IntToDecimal(timeInMS))]
  }

  /** The description LogException sends: cut to its first 150 characters. */
  function TruncateDescription(desc: string): (r: string)
    ensures |r| <= ExceptionDescriptionLimit && |r| <= |desc|
    ensures r == desc[..|r|]
    ensures |desc| <= ExceptionDescriptionLimit ==> r == desc
    ensures |desc| > ExceptionDescriptionLimit ==> |r| == ExceptionDescriptionLimit
  {
    if |desc| > ExceptionDescriptionLimit then desc[..ExceptionDescriptionLimit] else desc
  }

  function ExceptionHit(desc: string, isFatal: bool): Payload {
    [Field("t", "exception"), Field("exd", TruncateDescription(desc)),
     Field("exf", if isFatal then "1" else "0")]
  }

  /** The names the hit builders use. */
  const HitFieldNames: set<string> :=
    {"t", "cd", "ec", "ea", "el", "ev", "utc", "utv", "utl", "utt", "exd", "exf"}

  predicate UsesHitNames(hit: Payload) {
    forall i :: 0 <= i < |hit| ==> hit[i].name in HitFieldNames
  }

  // ---------------------------------------------------------------------
  // The context SendData reads

  datatype SystemInfo = SystemInfo(screenResolution: string, viewportSize: string, language: string)

  /** What SendData reads from the tracker's state when it completes a hit. */
  datatype Context = Context(
    trackingId: string,
    clientId: string,
    appName: string,
    appVersion: string,
    systemInfo: Option<SystemInfo>,
    dimensions: map<int, string>,
    metrics: map<int, int>,
    userId: Option<string>)

  /** The fields every hit carries: protocol version, tracking id, client id, app name and version. */
  function DefaultFields(ctx: Context): Payload {
    [Field("v", "1"), Field("tid", ctx.trackingId), Field("cid", ctx.clientId),
     Field("an", ctx.appName), Field("av", ctx.appVersion)]
  }

  function SystemFields(info: Option<SystemInfo>): Payload {
    match info
    case None => []
    case Some(si) =>
      [Field("sr", si.screenResolution), Field("vp", si.viewportSize), Field("ul", si.language)]
  }

  function UserIdFields(userId: Option<string>): Payload {
    if userId.Some? && userId.value != "" then [Field("uid", userId.value)] else []
  }

  function Identity(s: string): string { s }

  /** The fields `prefix<k>` = value for the keys of `m`, in the order `order`
      in which the dictionary was enumerated. */
  function IndexedFields<V>(prefix: string, m: map<int, V>, order: seq<int>, render: V -> string): Payload
    requires forall i :: 0 <= i < |order| ==> order[i] in m
  {
    if order == [] then []
    else
      var k := order[|order| - 1];
      IndexedFields(prefix, m, order[..|order| - 1], render) + [Field(prefix + IntToDecimal(k), render(m[k]))]
  }

  /** `order` lists every key of `keys` exactly once. */
  ghost predicate Enumerates(order: seq<int>, keys: set<int>) {
    && (forall i :: 0 <= i < |order| ==> order[i] in keys)
    && (forall k :: k in keys ==> k in order)
    && (forall i, j :: 0 <= i < j < |order| ==> order[i] != order[j])
  }

  /** A set of keys is empty or has a member (what lets a foreach loop pick its next key). */
  lemma EmptyOrMember(keys: set<int>)
    ensures keys == {} || exists k :: k in keys
  {
    if forall k :: k !in keys {
      assert keys == {};
    }
  }

  /** Part way through a foreach over `keys`: `order` lists, once each, the
      keys already visited, which are exactly those no longer `pending`. */
  ghost predicate EnumeratesSoFar(order: seq<int>, pending: set<int>, keys: set<int>) {
    && pending <= keys
    && (forall i :: 0 <= i < |order| ==> order[i] in keys && order[i] !in pending)
    && (forall k :: k in keys && k !in pending ==> k in order)
    && (forall i, j :: 0 <= i < j < |order| ==> order[i] != order[j])
  }

  /** Visiting one more pending key keeps the listing exact. */
  lemma EnumerationStep(order: seq<int>, pending: set<int>, keys: set<int>, k: int)
    requires EnumeratesSoFar(order, pending, keys) && k in pending
    ensures EnumeratesSoFar(order + [k], pending - {k}, keys)
  {
    var order' := order + [k];
    forall x | x in keys && x !in pending - {k} ensures x in order' {
      if x != k {
        var i :| 0 <= i < |order| && order[i] == x;
        assert order'[i] == x;
      } else {
        assert order'[|order|] == x;
      }
    }
  }

  /** Once nothing is pending, every key has been listed exactly once. */
  lemma EnumerationDone(order: seq<int>, keys: set<int>)
    requires EnumeratesSoFar(order, {}, keys)
    ensures Enumerates(order, keys)
  {
  }

  function Compose(hit: Payload, ctx: Context, dimensionOrder: seq<int>, metricOrder: seq<int>): Payload
    requires forall i :: 0 <= i < |dimensionOrder| ==> dimensionOrder[i] in ctx.dimensions
    requires forall i :: 0 <= i < |metricOrder| ==> metricOrder[i] in ctx.metrics
  {
    hit + DefaultFields(ctx) + SystemFields(ctx.systemInfo)
    + IndexedFields("cd", ctx.dimensions, dimensionOrder, Identity)
    + IndexedFields("cm", ctx.metrics, metricOrder, IntToDecimal)
    + UserIdFields(ctx.userId)
  }

  /**
   * `p` is what SendData posts for the hit fields `hit` in context `ctx`: the
   * hit, the default fields, the system information if gathered, one field
   * per custom dimension and per custom metric (in the dictionaries'
   * enumeration order, which the model leaves open), and the user id if set.
   */
  ghost predicate IsPayload(p: Payload, hit: Payload, ctx: Context) {
    exists dimensionOrder, metricOrder ::
      && Enumerates(dimensionOrder, ctx.dimensions.Keys)
      && Enumerates(metricOrder, ctx.metrics.Keys)
      && p == Compose(hit, ctx, dimensionOrder, metricOrder)
  }

  // ---------------------------------------------------------------------
  // Lemmas about indexed fields

  predicate StartsWith(name: string, prefix: string) {
    |prefix| <= |name| && name[..|prefix|] == prefix
  }

  lemma NotStartsWith(name: string, prefix: string, i: nat)
    requires i < |prefix| && (|name| < |prefix| || name[i] != prefix[i])
    ensures !StartsWith(name, prefix)
  {
    if |prefix| <= |name| {
      assert name[..|prefix|][i] != prefix[i];
    }
  }

  /** The fixed names SendData adds are neither hit names nor `cd`/`cm` names. */
  lemma FixedNameIsDistinct(name: string)
    requires name in {"v", "tid", "cid", "an", "av", "sr", "vp", "ul", "uid"}
    ensures name !in HitFieldNames && !StartsWith(name, "cd") && !StartsWith(name, "cm")
  {
    if name == "v" {
      NotStartsWith(name, "cd", 0);
      NotStartsWith(name, "cm", 0);
    } else if name == "cid" {
      NotStartsWith(name, "cd", 1);
      NotStartsWith(name, "cm", 1);
    } else {
      NotStartsWith(name, "cd", 0);
      NotStartsWith(name, "cm", 0);
    }
  }

  lemma {:induction false} IndexedFieldsNames<V>(prefix: string, m: map<int, V>, order: seq<int>, render: V -> string)
    requires forall i :: 0 <= i < |order| ==> order[i] in m
    ensures |IndexedFields(prefix, m, order, render)| == |order|
    ensures forall i :: 0 <= i < |order| ==>
      IndexedFields(prefix, m, order, render)[i] == Field(prefix + IntToDecimal(order[i]), render(m[order[i]]))
  {
    if order != [] {
      IndexedFieldsNames(prefix, m, order[..|order| - 1], render);
    }
  }

  /** A name that does not start with the prefix never occurs among the indexed fields. */
  lemma IndexedFieldsOtherNames<V>(prefix: string, m: map<int, V>, order: seq<int>, render: V -> string, name: string)
    requires forall i :: 0 <= i < |order| ==> order[i] in m
    requires !StartsWith(name, prefix)
    ensures CountNamed(IndexedFields(prefix, m, order, render), name) == 0
  {
    var fs := IndexedFields(prefix, m, order, render);
    IndexedFieldsNames(prefix, m, order, render);
    forall i | 0 <= i < |fs| ensures fs[i].name != name {
      assert (prefix + IntToDecimal(order[i]))[..|prefix|] == prefix;
    }
  }

  /** With a repetition-free order, `prefix<k>` occurs once if k is listed and never otherwise. */
  lemma {:induction false} IndexedFieldsCount<V>(prefix: string, m: map<int, V>, order: seq<int>, render: V -> string, k: int)
    requires forall i :: 0 <= i < |order| ==> order[i] in m
    requires forall i, j :: 0 <= i < j < |order| ==> order[i] != order[j]
    ensures CountNamed(IndexedFields(prefix, m, order, render), prefix + IntToDecimal(k)) == if k in order then 1 else 0
  {
    if order != [] {
      var init := order[..|order| - 1];
      var last := order[|order| - 1];
      IndexedFieldsCount(prefix, m, init, render, k);
      PrefixedDecimalInjective(prefix, last, k);
      var fs := IndexedFields(prefix, m, order, render);
      assert fs[..|fs| - 1] == IndexedFields(prefix, m, init, render);
      assert k in order <==> k in init || k == last;
      assert last !in init;
    }
  }

  lemma {:induction false} IndexedFieldsContain<V>(prefix: string, m: map<int, V>, order: seq<int>, render: V -> string, k: int)
    requires forall i :: 0 <= i < |order| ==> order[i] in m
    requires k in order
    ensures Field(prefix + IntToDecimal(k), render(m[k])) in IndexedFields(prefix, m, order, render)
  {
    IndexedFieldsNames(prefix, m, order, render);
    var i :| 0 <= i < |order| && order[i] == k;
    assert IndexedFields(prefix, m, order, render)[i] == Field(prefix + IntToDecimal(k), render(m[k]));
  }

  /** A repetition-free listing of a set is as long as the set is large. */
  lemma {:induction false} EnumeratesLength(order: seq<int>, keys: set<int>)
    requires Enumerates(order, keys)
    ensures |order| == |keys|
    decreases |order|
  {
    if order != [] {
      var last := order[|order| - 1];
      var init := order[..|order| - 1];
      assert Enumerates(init, keys - {last}) by {
        forall k | k in keys - {last} ensures k in init {
          var i :| 0 <= i < |order| && order[i] == k;
          assert i < |order| - 1;
          assert init[i] == k;
        }
      }
      EnumeratesLength(init, keys - {last});
    } else {
      assert keys == {} by {
        assert forall x :: x in keys ==> x in order;
      }
    }
  }

  // ---------------------------------------------------------------------
  // How often a name occurs in each part of a payload

  lemma CountNamedSingleton(f: Field, name: string)
    ensures CountNamed([f], name) == if f.name == name then 1 else 0
  {
    assert [f][..0] == [];
  }

  lemma CountHitFields(hit: Payload, name: string)
    requires UsesHitNames(hit) && name !in HitFieldNames
    ensures CountNamed(hit, name) == 0
  {
  }

  lemma CountDefaultFields(ctx: Context, name: string)
    ensures CountNamed(DefaultFields(ctx), name) == if name in {"v", "tid", "cid", "an", "av"} then 1 else 0
  {
    var d := DefaultFields(ctx);
    assert d == [d[0]] + [d[1]] + [d[2]] + [d[3]] + [d[4]];
    CountNamedAppend([d[0]], [d[1]], name);
    CountNamedAppend([d[0]] + [d[1]], [d[2]], name);
    CountNamedAppend([d[0]] + [d[1]] + [d[2]], [d[3]], name);
    CountNamedAppend([d[0]] + [d[1]] + [d[2]] + [d[3]], [d[4]], name);
    CountNamedSingleton(d[0], name);
    CountNamedSingleton(d[1], name);
    CountNamedSingleton(d[2], name);
    CountNamedSingleton(d[3], name);
    CountNamedSingleton(d[4], name);
  }

  lemma CountSystemFields(info: Option<SystemInfo>, name: string)
    ensures CountNamed(SystemFields(info), name) == if info.Some? && name in {"sr", "vp", "ul"} then 1 else 0
  {
    if info.Some? {
      var d := SystemFields(info);
      assert d == [d[0]] + [d[1]] + [d[2]];
      CountNamedAppend([d[0]], [d[1]], name);
      CountNamedAppend([d[0]] + [d[1]], [d[2]], name);
      CountNamedSingleton(d[0], name);
      CountNamedSingleton(d[1], name);
      CountNamedSingleton(d[2], name);
    }
  }

  lemma CountUserIdFields(userId: Option<string>, name: string)
    ensures CountNamed(UserIdFields(userId), name) ==
      if userId.Some? && userId.value != "" && name == "uid" then 1 else 0
  {
    if userId.Some? && userId.value != "" {
      CountNamedSingleton(Field("uid", userId.value), name);
    }
  }

  /** `cd<k>` and `cm<k>` collide with no other name a payload uses. */
  lemma IndexedNameIsDistinct(prefix: string, k: int)
    requires prefix == "cd" || prefix == "cm"
    ensures var name := prefix + IntToDecimal(k);
      && name !in HitFieldNames
      && name !in {"v", "tid", "cid", "an", "av"}
      && name !in {"sr", "vp", "ul"}
      && name != "uid"
      && (prefix == "cd" ==> !StartsWith(name, "cm"))
      && (prefix == "cm" ==> !StartsWith(name, "cd"))
  {
    var name := prefix + IntToDecimal(k);
    assert |name| >= 3 && name[0] == 'c' && name[1] == prefix[1];
    assert name[..2] == prefix;
  }

  lemma CountNamedCompose(hit: Payload, ctx: Context, dimensionOrder: seq<int>, metricOrder: seq<int>, name: string)
    requires forall i :: 0 <= i < |dimensionOrder| ==> dimensionOrder[i] in ctx.dimensions
    requires forall i :: 0 <= i < |metricOrder| ==> metricOrder[i] in ctx.metrics
    ensures CountNamed(Compose(hit, ctx, dimensionOrder, metricOrder), name) ==
      CountNamed(hit, name) + CountNamed(DefaultFields(ctx), name) + CountNamed(SystemFields(ctx.systemInfo), name)
      + CountNamed(IndexedFields("cd", ctx.dimensions, dimensionOrder, Identity), name)
      + CountNamed(IndexedFields("cm", ctx.metrics, metricOrder, IntToDecimal), name)
      + CountNamed(UserIdFields(ctx.userId), name)
  {
    var a := hit;
    var b := DefaultFields(ctx);
    var c := SystemFields(ctx.systemInfo);
    var d := IndexedFields("cd", ctx.dimensions, dimensionOrder, Identity);
    var e := IndexedFields("cm", ctx.metrics, metricOrder, IntToDecimal);
    var f := UserIdFields(ctx.userId);
    CountNamedAppend(a, b, name);
    CountNamedAppend(a + b, c, name);
    CountNamedAppend(a + b + c, d, name);
    CountNamedAppend(a + b + c + d, e, name);
    CountNamedAppend(a + b + c + d + e, f, name);
  }

  /** Names other than `cd<k>` and `cm<k>` are counted in the fixed parts only. */
  lemma CountFixedName(hit: Payload, ctx: Context, dimensionOrder: seq<int>, metricOrder: seq<int>, name: string)
    requires forall i :: 0 <= i < |dimensionOrder| ==> dimensionOrder[i] in ctx.dimensions
    requires forall i :: 0 <= i < |metricOrder| ==> metricOrder[i] in ctx.metrics
    requires UsesHitNames(hit) && name !in HitFieldNames
    requires !StartsWith(name, "cd") && !StartsWith(name, "cm")
    ensures CountNamed(Compose(hit, ctx, dimensionOrder, metricOrder), name) ==
      CountNamed(DefaultFields(ctx), name) + CountNamed(SystemFields(ctx.systemInfo), name)
      + CountNamed(UserIdFields(ctx.userId), name)
  {
    CountNamedCompose(hit, ctx, dimensionOrder, metricOrder, name);
    CountHitFields(hit, name);
    IndexedFieldsOtherNames("cd", ctx.dimensions, dimensionOrder, Identity, name);
    IndexedFieldsOtherNames("cm", ctx.metrics, metricOrder, IntToDecimal, name);
  }

  // ---------------------------------------------------------------------
  // What a payload contains

  /** The two enumeration orders that witness IsPayload. */
  lemma PayloadOrders(p: Payload, hit: Payload, ctx: Context) returns (dimensionOrder: seq<int>, metricOrder: seq<int>)
    requires IsPayload(p, hit, ctx)
    ensures Enumerates(dimensionOrder, ctx.dimensions.Keys) && Enumerates(metricOrder, ctx.metrics.Keys)
    ensures p == Compose(hit, ctx, dimensionOrder, metricOrder)
  {
    dimensionOrder, metricOrder :| Enumerates(dimensionOrder, ctx.dimensions.Keys)
      && Enumerates(metricOrder, ctx.metrics.Keys)
      && p == Compose(hit, ctx, dimensionOrder, metricOrder);
  }

  /** The dimension stored under index k is sent exactly once as `cd<k>`;
      an index without a stored dimension is not sent at all. */
  lemma PayloadDimension(p: Payload, hit: Payload, ctx: Context, k: int)
    requires IsPayload(p, hit, ctx) && UsesHitNames(hit)
    ensures CountNamed(p, "cd" + IntToDecimal(k)) == if k in ctx.dimensions then 1 else 0
    ensures k in ctx.dimensions ==> Field("cd" + IntToDecimal(k), ctx.dimensions[k]) in p
  {
    var dOrder, mOrder := PayloadOrders(p, hit, ctx);
    var name := "cd" + IntToDecimal(k);
    IndexedNameIsDistinct("cd", k);
    CountNamedCompose(hit, ctx, dOrder, mOrder, name);
    CountHitFields(hit, name);
    CountDefaultFields(ctx, name);
    CountSystemFields(ctx.systemInfo, name);
    CountUserIdFields(ctx.userId, name);
    IndexedFieldsCount("cd", ctx.dimensions, dOrder, Identity, k);
    IndexedFieldsOtherNames("cm", ctx.metrics, mOrder, IntToDecimal, name);
    if k in ctx.dimensions {
      IndexedFieldsContain("cd", ctx.dimensions, dOrder, Identity, k);
    }
  }

  /** The metric stored under index k is sent exactly once as `cm<k>`, rendered in decimal. */
  lemma PayloadMetric(p: Payload, hit: Payload, ctx: Context, k: int)
    requires IsPayload(p, hit, ctx) && UsesHitNames(hit)
    ensures CountNamed(p, "cm" + IntToDecimal(k)) == if k in ctx.metrics then 1 else 0
    ensures k in ctx.metrics ==> Field("cm" + IntToDecimal(k), IntToDecimal(ctx.metrics[k])) in p
  {
    var dOrder, mOrder := PayloadOrders(p, hit, ctx);
    var name := "cm" + IntToDecimal(k);
    IndexedNameIsDistinct("cm", k);
    CountNamedCompose(hit, ctx, dOrder, mOrder, name);
    CountHitFields(hit, name);
    CountDefaultFields(ctx, name);
    CountSystemFields(ctx.systemInfo, name);
    CountUserIdFields(ctx.userId, name);
    IndexedFieldsCount("cm", ctx.metrics, mOrder, IntToDecimal, k);
    IndexedFieldsOtherNames("cd", ctx.dimensions, dOrder, Identity, name);
    if k in ctx.metrics {
      IndexedFieldsContain("cm", ctx.metrics, mOrder, IntToDecimal, k);
    }
  }

  /** The payload starts with the hit's own fields, followed by the default
      fields; each default name occurs exactly once. */
  lemma PayloadRequiredFields(p: Payload, hit: Payload, ctx: Context)
    requires IsPayload(p, hit, ctx) && UsesHitNames(hit)
    ensures p[..|hit|] == hit
    ensures p[|hit|..|hit| + 5] == DefaultFields(ctx)
    ensures forall name :: name in {"v", "tid", "cid", "an", "av"} ==> CountNamed(p, name) == 1
  {
    var dOrder, mOrder := PayloadOrders(p, hit, ctx);
    forall name | name in {"v", "tid", "cid", "an", "av"} ensures CountNamed(p, name) == 1 {
      FixedNameIsDistinct(name);
      CountFixedName(hit, ctx, dOrder, mOrder, name);
      CountDefaultFields(ctx, name);
      CountSystemFields(ctx.systemInfo, name);
      CountUserIdFields(ctx.userId, name);
    }
  }

  /** Screen resolution, viewport and language are sent, once each, exactly when gathered. */
  lemma PayloadSystemInfo(p: Payload, hit: Payload, ctx: Context)
    requires IsPayload(p, hit, ctx) && UsesHitNames(hit)
    ensures forall name :: name in {"sr", "vp", "ul"} ==>
      CountNamed(p, name) == if ctx.systemInfo.Some? then 1 else 0
    ensures ctx.systemInfo.Some? ==>
      && Field("sr", ctx.systemInfo.value.screenResolution) in p
      && Field("vp", ctx.systemInfo.value.viewportSize) in p
      && Field("ul", ctx.systemInfo.value.language) in p
  {
    var dOrder, mOrder := PayloadOrders(p, hit, ctx);
    forall name | name in {"sr", "vp", "ul"}
      ensures CountNamed(p, name) == if ctx.systemInfo.Some? then 1 else 0
    {
      FixedNameIsDistinct(name);
      CountFixedName(hit, ctx, dOrder, mOrder, name);
      CountDefaultFields(ctx, name);
      CountSystemFields(ctx.systemInfo, name);
      CountUserIdFields(ctx.userId, name);
    }
    SystemFieldsInCompose(hit, ctx, dOrder, mOrder);
  }

  /** Every system field is part of the composed form. */
  lemma SystemFieldsInCompose(hit: Payload, ctx: Context, dimensionOrder: seq<int>, metricOrder: seq<int>)
    requires forall i :: 0 <= i < |dimensionOrder| ==> dimensionOrder[i] in ctx.dimensions
    requires forall i :: 0 <= i < |metricOrder| ==> metricOrder[i] in ctx.metrics
    ensures forall f :: f in SystemFields(ctx.systemInfo) ==> f in Compose(hit, ctx, dimensionOrder, metricOrder)
  {
    var head := hit + DefaultFields(ctx);
    var tail := IndexedFields("cd", ctx.dimensions, dimensionOrder, Identity)
      + IndexedFields("cm", ctx.metrics, metricOrder, IntToDecimal)
      + UserIdFields(ctx.userId);
    assert Compose(hit, ctx, dimensionOrder, metricOrder) == head + SystemFields(ctx.systemInfo) + tail;
  }

  /** The user id is sent, once, exactly when it is set and not empty. */
  lemma PayloadUserId(p: Payload, hit: Payload, ctx: Context)
    requires IsPayload(p, hit, ctx) && UsesHitNames(hit)
    ensures CountNamed(p, "uid") == if ctx.userId.Some? && ctx.userId.value != "" then 1 else 0
    ensures ctx.userId.Some? && ctx.userId.value != "" ==> Field("uid", ctx.userId.value) in p
  {
    var dOrder, mOrder := PayloadOrders(p, hit, ctx);
    FixedNameIsDistinct("uid");
    CountFixedName(hit, ctx, dOrder, mOrder, "uid");
    CountDefaultFields(ctx, "uid");
    CountSystemFields(ctx.systemInfo, "uid");
    CountUserIdFields(ctx.userId, "uid");
    if ctx.userId.Some? && ctx.userId.value != "" {
      assert p[|p| - 1] == Field("uid", ctx.userId.value);
    }
  }

  /** Nothing else is sent: the payload's length is the sum of its parts. */
  lemma PayloadLength(p: Payload, hit: Payload, ctx: Context)
    requires IsPayload(p, hit, ctx)
    ensures |p| == |hit| + 5 + (if ctx.systemInfo.Some? then 3 else 0)
      + |ctx.dimensions| + |ctx.metrics|
      + (if ctx.userId.Some? && ctx.userId.value != "" then 1 else 0)
  {
    var dOrder, mOrder := PayloadOrders(p, hit, ctx);
    EnumeratesLength(dOrder, ctx.dimensions.Keys);
    EnumeratesLength(mOrder, ctx.metrics.Keys);
    IndexedFieldsNames("cd", ctx.dimensions, dOrder, Identity);
    IndexedFieldsNames("cm", ctx.metrics, mOrder, IntToDecimal);
  }
}
