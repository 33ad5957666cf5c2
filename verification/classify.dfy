/** The two shape predicates of `src/utils/fileHandlers.js`: is a parsed file
    a raw Instagram message export, or a processed statistics file? Both probe
    properties ad hoc, so the first can throw and the two can overlap. */
module Classify {
  import opened Options
  import opened Js

  /** The test an `every` callback applies to one element: each of `keys` in
      turn names a truthy property (the callback's `&&` stops at the first
      falsy one, which reads the same as requiring all of them). */
  predicate HasTruthy(x: Json, keys: seq<string>) {
    forall k :: 0 <= k < |keys| ==> Present(Get(x, keys[k]))
  }

  /** `xs.every(x => x.k1 && x.k2 && ...)`: stops at the first element that
      fails the test, and throws when that element is `null` (reading its
      first key). */
  function EveryHas(xs: seq<Json>, keys: seq<string>): (r: Completion<bool>)
    requires |keys| > 0
    ensures r == Normal(true) <==> forall i :: 0 <= i < |xs| ==> HasTruthy(xs[i], keys)
    ensures r.Throw? <==> exists i :: 0 <= i < |xs| && xs[i] == JNull &&
                            forall j :: 0 <= j < i ==> HasTruthy(xs[j], keys)
    ensures r.Throw? ==> r.error == NullPropertyRead(keys[0])
  {
    if |xs| == 0 then Normal(true)
    else if xs[0] == JNull then Throw(NullPropertyRead(keys[0]))
    else if !HasTruthy(xs[0], keys) then Normal(false)
    else
      var r := EveryHas(xs[1..], keys);
      assert forall i :: 1 <= i < |xs| ==> xs[i] == xs[1..][i - 1];
      assert r.Throw? ==> exists i :: 0 <= i < |xs[1..]| && xs[1..][i] == JNull &&
                            forall j :: 0 <= j < i ==> HasTruthy(xs[1..][j], keys);
      r
  }

  /** The keys each participant's callback tests: `p => p.name`. */
  const ParticipantKeys: seq<string> := ["name"]

  /** The keys each message's callback tests: `m => m.sender_name && m.timestamp_ms`. */
  const MessageKeys: seq<string> := ["sender_name", "timestamp_ms"]

  /** A participant with a truthy `name`. */
  predicate Named(participant: Json) {
    HasTruthy(participant, ParticipantKeys)
  }

  /** A message with a truthy `sender_name` and a truthy `timestamp_ms`. */
  predicate Stamped(message: Json) {
    HasTruthy(message, MessageKeys)
  }

  /** The shape of a raw export, stated structurally: an object whose
      `participants` is a non-empty array of elements with a truthy `name`,
      whose `messages` is an array (possibly empty) of elements with a truthy
      `sender_name` and `timestamp_ms`, and whose `title` is a string. */
  predicate RawExportShape(data: Json) {
    data.JObj? &&
    match (Get(data, "participants"), Get(data, "messages"), Get(data, "title"))
    case (Some(JArr(ps)), Some(JArr(ms)), Some(JStr(_))) =>
      && |ps| > 0
      && (forall i :: 0 <= i < |ps| ==> Named(ps[i]))
      && (forall i :: 0 <= i < |ms| ==> Stamped(ms[i]))
    case _ => false
  }

  /** Some element of the `participants` or `messages` array is `null`. */
  predicate HasNullEntry(data: Json) {
    || (IsArray(Get(data, "participants")) && JNull in Get(data, "participants").value.items)
    || (IsArray(Get(data, "messages")) && JNull in Get(data, "messages").value.items)
  }

  /** `isInstagramMessageFile(data)`. It finishes normally with `true` exactly
      on raw export shapes, and throws only when an array it walks holds a
      `null` element. */
  function IsInstagramMessageFile(data: Json): (r: Completion<bool>)
    ensures r == Normal(true) <==> RawExportShape(data)
    ensures r.Throw? ==> HasNullEntry(data)
    ensures !HasNullEntry(data) ==> r.Normal?
  {
    var participants := Get(data, "participants");
    var messages := Get(data, "messages");
    if !(&& Truthy(data)
         && TypeofObject(Some(data))
         && IsArray(participants)
         && IsArray(messages)
         && TypeofString(Get(data, "title"))
         && |participants.value.items| > 0)
    then Normal(false)
    else
      match EveryHas(participants.value.items, ParticipantKeys)
      case Throw(e) => Throw(e)
      case Normal(named) =>
        if !named then Normal(false)
        else EveryHas(messages.value.items, MessageKeys)
  }

  /** `isProcessedStatsFile(data)`: an object whose `total_messages` is a
      number and whose `per_sender` is a non-null object or an array. */
  function IsProcessedStatsFile(data: Json): (r: bool)
    ensures r <==> && data.JObj?
                   && TypeofNumber(Get(data, "total_messages"))
                   && Get(data, "per_sender").Some?
                   && (Get(data, "per_sender").value.JObj? || Get(data, "per_sender").value.JArr?)
  {
    && Truthy(data)
    && TypeofObject(Some(data))
    && TypeofNumber(Get(data, "total_messages"))
    && Present(Get(data, "per_sender"))
    && TypeofObject(Get(data, "per_sender"))
  }

  /** The cases in which the raw-export test never answers `true`. */
  lemma InstagramRejections(data: Json)
    ensures !data.JObj? ==> IsInstagramMessageFile(data) == Normal(false)
    ensures Get(data, "participants") == Some(JArr([])) ==> IsInstagramMessageFile(data) == Normal(false)
    ensures (IsArray(Get(data, "participants")) &&
             exists i :: 0 <= i < |Get(data, "participants").value.items| &&
                         !Named(Get(data, "participants").value.items[i]))
            ==> IsInstagramMessageFile(data) != Normal(true)
    ensures (IsArray(Get(data, "messages")) &&
             exists i :: 0 <= i < |Get(data, "messages").value.items| &&
                         !Stamped(Get(data, "messages").value.items[i]))
            ==> IsInstagramMessageFile(data) != Normal(true)
  {
  }

  /** A raw export whose `messages` array is empty is still accepted. */
  lemma EmptyMessagesAccepted(data: Json)
    requires data.JObj?
    requires Get(data, "messages") == Some(JArr([]))
    requires TypeofString(Get(data, "title"))
    requires IsArray(Get(data, "participants"))
    requires |Get(data, "participants").value.items| > 0
    requires forall i :: 0 <= i < |Get(data, "participants").value.items| ==>
               Named(Get(data, "participants").value.items[i])
    ensures IsInstagramMessageFile(data) == Normal(true)
  {
  }

  /** An object carrying both field sets: a one-participant export with no
      messages that also has a message total and a per-sender table. */
  function BothShapes(name: string, title: string, total: int): Json {
    JObj([
      ("participants", JArr([JObj([("name", JStr(name))])])),
      ("messages", JArr([])),
      ("title", JStr(title)),
      ("total_messages", JNum(total)),
      ("per_sender", JObj([]))
    ])
  }

  lemma BothShapesIsRaw(name: string, title: string, total: int)
    requires |name| > 0
    ensures IsInstagramMessageFile(BothShapes(name, title, total)) == Normal(true)
  {
    var data := BothShapes(name, title, total);
    var f := data.fields;
    var participant := JObj([("name", JStr(name))]);
    assert Named(participant) by {
      LookupFirst(participant.fields, "name", 0);
    }
    LookupFirst(f, "participants", 0);
    LookupFirst(f, "messages", 1);
    LookupFirst(f, "title", 2);
    assert Get(data, "participants").value.items == [participant];
    EmptyMessagesAccepted(data);
  }

  lemma BothShapesIsProcessed(name: string, title: string, total: int)
    ensures IsProcessedStatsFile(BothShapes(name, title, total))
  {
    var data := BothShapes(name, title, total);
    assert Get(data, "total_messages") == Some(JNum(total)) by {
      LookupFirst(data.fields, "total_messages", 3);
    }
    assert Get(data, "per_sender") == Some(JObj([])) by {
      LookupFirst(data.fields, "per_sender", 4);
    }
  }

  /** The two predicates are not disjoint: every such object satisfies both. */
  lemma PredicatesOverlap(name: string, title: string, total: int)
    requires |name| > 0
    ensures IsInstagramMessageFile(BothShapes(name, title, total)) == Normal(true)
    ensures IsProcessedStatsFile(BothShapes(name, title, total))
  {
    BothShapesIsRaw(name, title, total);
    BothShapesIsProcessed(name, title, total);
  }
}
