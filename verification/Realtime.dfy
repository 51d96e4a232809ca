/** The realtime hub (`backend/src/realtime.rs`): one replica's part of it, and what a client is sent. */
module Realtime {
  import opened Wrappers
  import opened Text
  import opened Selections

  // ---- Payloads --------------------------------------------------------------------------------

  function Payload(instance: string, topic: string): string {
    instance + ":" + topic
  }

  function ForeignTopic(instance: string, payload: string): Option<string> {
    var s := SplitOnce(payload, ':');
    if s.None? || s.value.0 == instance then None else Some(s.value.1)
  }

  predicate ColonFree(s: string) {
    ':' !in s
  }

  /** A tag without a colon is parsed back whatever the topic holds: others recover the topic, and its own
      sender drops it as an echo. */
  lemma PayloadRoundTrip(from: string, topic: string, instance: string)
    requires ColonFree(from)
    ensures ForeignTopic(instance, Payload(from, topic)) == if instance == from then None else Some(topic)
  {
    SplitAtFirst(from, ':', topic);
  }

  // ---- Subscriptions ---------------------------------------------------------------------------

  const ALL: set<string> := {
    "flow.release", "flow.fca", "tmu.gdp", "tmu.tmi", "tmu.groundstop", "tmu.program", "tmu.advisory", "flow.cfr",
    "events.availability", "access.granted", "events.reminder", "events.ace", "flow.runway", "flow.sector_limits",
    "flow.sector_consolidations", "feed.tick"
  }

  datatype Message =
    | Nudge(topic: string) | BadRequest | UnknownTopic(topics: seq<string>) | Subscribed(topics: seq<string>)
    | Pong(data: seq<bv8>) | KeepAlive

  /** Those of `names` that no topic has, in the order they were named. */
  function Unknown(names: seq<string>): (r: seq<string>)
    ensures r == [] <==> forall x :: x in names ==> x in ALL
    ensures forall x :: x in r <==> x in names && x !in ALL
  {
    if names == [] then []
    else
      assert names == names[..|names| - 1] + [names[|names| - 1]];
      Unknown(names[..|names| - 1]) + if names[|names| - 1] in ALL then [] else [names[|names| - 1]]
  }

  /** What a text frame asks for: nothing when it is no subscribe frame. */
  type Frame = Option<seq<string>>

  predicate Accepted(f: Frame) {
    f.Some? && forall x :: x in f.value ==> x in ALL
  }

  function Named(f: Frame): set<string>
    requires f.Some?
  {
    set x | x in f.value
  }

  function Reply(f: Frame): Message {
    if f.None? then BadRequest
    else if Unknown(f.value) != [] then UnknownTopic(Unknown(f.value))
    else Subscribed(SortedNames(f.value))
  }

  class Subscription {
    var topics: Option<set<string>>

    constructor ()
      ensures topics == None
    {
      topics := None;
    }

    predicate Wants(topic: string)
      reads this
    {
      topics.None? || topic in topics.value
    }

    /** An accepted frame replaces the set with exactly what it names; any other changes nothing. */
    method Apply(f: Frame) returns (reply: Message)
      modifies this
      ensures reply == Reply(f)
      ensures topics == if Accepted(f) then Some(Named(f)) else old(topics)
    {
      if f.None? {
        return BadRequest;
      }
      var unknown := Unknown(f.value);
      if unknown != [] {
        return UnknownTopic(unknown);
      }
      topics := Some(set known | known in ALL && known in f.value);
      assert topics.value == Named(f);
      return Subscribed(SortedNames(f.value));
    }
  }

  // ---- One connection --------------------------------------------------------------------------

  datatype Input =
    | Event(topic: string) | Lagged | HubClosed | Text(frame: Frame) | Ping(data: seq<bv8>) | OtherFrame | Gone | Tick

  /** The last accepted frame among the first `n` inputs. */
  function Asked(inputs: seq<Input>, n: nat): Option<set<string>>
    requires n <= |inputs|
  {
    if n == 0 then None
    else if inputs[n - 1].Text? && Accepted(inputs[n - 1].frame) then Some(Named(inputs[n - 1].frame))
    else Asked(inputs, n - 1)
  }

  /** What input `n` makes the server send. */
  function Sent(inputs: seq<Input>, n: nat): seq<Message>
    requires n < |inputs|
  {
    match inputs[n]
    case Event(topic) => if Asked(inputs, n).None? || topic in Asked(inputs, n).value then [Nudge(topic)] else []
    case Text(f) => [Reply(f)]
    case Ping(data) => [Pong(data)]
    case Tick => [KeepAlive]
    case _ => []
  }

  function Script(inputs: seq<Input>, n: nat): seq<Message>
    requires n <= |inputs|
  {
    if n == 0 then [] else Script(inputs, n - 1) + Sent(inputs, n - 1)
  }

  lemma NoScript(inputs: seq<Input>)
    ensures Script(inputs, 0) == [] && Asked(inputs, 0) == None && Answered(inputs, 0) == {}
  {
  }

  lemma ScriptStep(inputs: seq<Input>, n: nat)
    requires n < |inputs|
    ensures Script(inputs, n + 1) == Script(inputs, n) + Sent(inputs, n)
    ensures
      Asked(inputs, n + 1)
      == if inputs[n].Text? && Accepted(inputs[n].frame) then Some(Named(inputs[n].frame)) else Asked(inputs, n)
  {
    hide Sent, Accepted, Named;
  }

  // ---- What a client is sent -------------------------------------------------------------------

  ghost predicate Accepts(inputs: seq<Input>, i: nat) {
    i < |inputs| && inputs[i].Text? && Accepted(inputs[i].frame)
  }

  /** Whether event `i` of topic `topic` is forwarded: nothing has been asked for yet, or the latest frame accepted
      before it names the topic. A frame that is not accepted makes no difference. */
  ghost predicate Forwarded(inputs: seq<Input>, i: nat, topic: string) {
    || (forall j: nat :: j < i ==> !Accepts(inputs, j))
    || exists j: nat :: j < i && LatestAsk(inputs, i, j) && topic in inputs[j].frame.value
  }

  ghost predicate LatestAsk(inputs: seq<Input>, i: nat, j: nat) {
    Accepts(inputs, j) && forall k: nat :: j < k < i ==> !Accepts(inputs, k)
  }

  /** The inputs among the first `n` that make the server say something. */
  ghost function Answered(inputs: seq<Input>, n: nat): set<nat> {
    set i | 0 <= i < n && i < |inputs| && IsAnswered(inputs, i)
  }

  ghost predicate IsAnswered(inputs: seq<Input>, i: nat)
    requires i < |inputs|
  {
    match inputs[i]
    case Event(topic) => Forwarded(inputs, i, topic)
    case Text(_) => true
    case Ping(_) => true
    case Tick => true
    case _ => false
  }

  ghost function UnknownAt(names: seq<string>): set<nat> {
    set i | 0 <= i < |names| && names[i] !in ALL
  }

  /** The unknown names of a frame, in the order it names them, repeats and all. */
  ghost predicate NamesUnknown(names: seq<string>, unknown: seq<string>, ix: seq<nat>) {
    && Lists(ix, UnknownAt(names)) && |ix| == |unknown|
    && forall k :: 0 <= k < |ix| ==> ix[k] < |names| && unknown[k] == names[ix[k]]
  }

  /** What is said to one input. */
  ghost predicate Answers(input: Input, m: Message) {
    match input
    case Event(topic) => m == Nudge(topic)
    case Ping(data) => m == Pong(data)
    case Tick => m == KeepAlive
    case Text(f) =>
      if f.None? then m == BadRequest
      else if forall x :: x in f.value ==> x in ALL
      then m.Subscribed? && Ascending(m.topics) && forall x :: x in m.topics <==> x in f.value
      else m.UnknownTopic? && exists ix :: NamesUnknown(f.value, m.topics, ix)
    case _ => false
  }

  /** One message for each answered input, in order: `from[k]` is the input of the k-th. */
  ghost predicate Serves(inputs: seq<Input>, n: nat, sent: seq<Message>, from: seq<nat>) {
    && Lists(from, Answered(inputs, n)) && |from| == |sent|
    && forall k :: 0 <= k < |from| ==> from[k] < |inputs| && Answers(inputs[from[k]], sent[k])
  }

  lemma {:induction false} AskedIsLatest(inputs: seq<Input>, n: nat)
    requires n <= |inputs|
    ensures Asked(inputs, n).None? <==> forall j: nat :: j < n ==> !Accepts(inputs, j)
    ensures forall j: nat :: j < n && LatestAsk(inputs, n, j) ==> Asked(inputs, n) == Some(Named(inputs[j].frame))
    ensures Asked(inputs, n).Some? ==> exists j: nat :: j < n && LatestAsk(inputs, n, j)
  {
    hide ALL;
    if n > 0 {
      AskedIsLatest(inputs, n - 1);
      if Accepts(inputs, n - 1) {
        assert LatestAsk(inputs, n, n - 1);
      } else if Asked(inputs, n - 1).Some? {
        var j: nat :| j < n - 1 && LatestAsk(inputs, n - 1, j);
        assert LatestAsk(inputs, n, j);
      }
      forall j: nat | j < n && LatestAsk(inputs, n, j) ensures Asked(inputs, n) == Some(Named(inputs[j].frame)) {
        if j < n - 1 {
          assert LatestAsk(inputs, n - 1, j);
        }
      }
    }
  }

  lemma SendsForwarded(inputs: seq<Input>, n: nat, topic: string)
    requires n < |inputs| && inputs[n] == Event(topic)
    ensures Sent(inputs, n) == if Forwarded(inputs, n, topic) then [Nudge(topic)] else []
  {
    hide ALL, Accepted;
    AskedIsLatest(inputs, n);
  }

  lemma {:induction false} UnknownInOrder(names: seq<string>) returns (ix: seq<nat>)
    ensures NamesUnknown(names, Unknown(names), ix)
  {
    hide ALL, Unknown, UnknownAt;
    if names == [] {
      NoneUnknown();
      ix := [];
    } else {
      var last := |names| - 1;
      ix := UnknownInOrder(names[..last]);
      UnknownLast(names);
      UnknownAtLast(names);
      if names[last] !in ALL {
        ListsGrow(ix, UnknownAt(names[..last]), last);
        ix := ix + [last];
      }
    }
  }

  lemma NoneUnknown()
    ensures Unknown([]) == [] && UnknownAt([]) == {}
  {
  }

  lemma UnknownAtLast(names: seq<string>)
    requires names != []
    ensures var (last, front) := (|names| - 1, UnknownAt(names[..|names| - 1]));
      && UnknownAt(names) == (if names[last] in ALL then front else front + {last})
      && forall i :: i in front ==> i < last
  {
    hide ALL;
  }

  lemma UnknownLast(names: seq<string>)
    requires names != []
    ensures var (last, front) := (|names| - 1, Unknown(names[..|names| - 1]));
      Unknown(names) == if names[last] in ALL then front else front + [names[last]]
  {
    hide ALL;
  }

  lemma ReplyAnswers(f: Frame)
    ensures Answers(Text(f), Reply(f))
  {
    hide ALL;
    if f.Some? {
      var ix := UnknownInOrder(f.value);
    }
  }

  lemma {:induction false} ScriptServes(inputs: seq<Input>, n: nat) returns (from: seq<nat>)
    requires n <= |inputs|
    ensures Serves(inputs, n, Script(inputs, n), from)
  {
    hide ALL, Answers, IsAnswered, Sent, Asked, Answered, Script;
    if n == 0 {
      from := [];
      NoScript(inputs);
    } else {
      var i := n - 1;
      from := ScriptServes(inputs, i);
      SentAnswers(inputs, i);
      AnsweredLast(inputs, i);
      ScriptStep(inputs, i);
      if IsAnswered(inputs, i) {
        ListsGrow(from, Answered(inputs, i), i);
        from := from + [i];
      }
    }
  }

  lemma AnsweredLast(inputs: seq<Input>, i: nat)
    requires i < |inputs|
    ensures Answered(inputs, i + 1) == if IsAnswered(inputs, i) then Answered(inputs, i) + {i} else Answered(inputs, i)
    ensures forall j :: j in Answered(inputs, i) ==> j < i
  {
    hide IsAnswered;
  }

  lemma SentAnswers(inputs: seq<Input>, i: nat)
    requires i < |inputs|
    ensures |Sent(inputs, i)| == if IsAnswered(inputs, i) then 1 else 0
    ensures IsAnswered(inputs, i) ==> Answers(inputs[i], Sent(inputs, i)[0])
  {
    hide ALL, Forwarded, Reply, Asked, NamesUnknown, Ascending;
    match inputs[i] {
      case Event(topic) => SendsForwarded(inputs, i, topic);
      case Text(f) => ReplyAnswers(f);
      case _ =>
    }
  }

  /** Serve one client until it or the hub goes away, or the send after the first `sends` fails. */
  method Pump(inputs: seq<Input>, sends: nat) returns (sent: seq<Message>, read: nat)
    ensures read <= |inputs| && sent == Script(inputs, read) && |sent| <= sends
    ensures exists from :: Serves(inputs, read, sent, from)
    ensures forall i :: 0 <= i < read ==> !inputs[i].HubClosed? && !inputs[i].Gone?
    ensures read == |inputs| || inputs[read].HubClosed? || inputs[read].Gone? || (IsAnswered(inputs, read) && |sent| == sends)
  {
    hide ALL, Reply, Accepted, Named, Script, Asked, Serves;
    NoScript(inputs);
    var subscription := new Subscription();
    sent, read := [], 0;
    while read < |inputs|
      invariant read <= |inputs| && sent == Script(inputs, read) && |sent| <= sends
      invariant forall i :: 0 <= i < read ==> !inputs[i].HubClosed? && !inputs[i].Gone?
      invariant subscription.topics == Asked(inputs, read)
    {
      ScriptStep(inputs, read);
      var message: Option<Message> := None;
      match inputs[read] {
        case Event(topic) =>
          if subscription.Wants(topic) {
            message := Some(Nudge(topic));
          }
        case HubClosed => break;
        case Gone => break;
        case Text(f) =>
          var reply := subscription.Apply(f);
          message := Some(reply);
        case Ping(data) => message := Some(Pong(data));
        case Tick => message := Some(KeepAlive);
        case _ =>
      }
      if message.Some? {
        if |sent| == sends {
          SentAnswers(inputs, read);
          break;
        }
        sent := sent + [message.value];
      }
      read := read + 1;
    }
    ghost var from := ScriptServes(inputs, read);
    assert Serves(inputs, read, sent, from);
  }

  // ---- The hub of one replica ------------------------------------------------------------------

  class Events {
    const instance: string
    const pool: bool
    var local: seq<string>

    constructor (instance: string, pool: bool)
      ensures this.instance == instance && this.pool == pool && local == []
    {
      this.instance, this.pool, local := instance, pool, [];
    }

    method Deliver(topic: string)
      modifies this
      ensures local == old(local) + [topic]
    {
      local := local + [topic];
    }

    /** The payload, if any, is what the spawned task will try to notify. */
    method Publish(topic: string) returns (spawned: Option<string>)
      modifies this
      ensures local == old(local) + [topic]
      ensures spawned == if pool then Some(Payload(instance, topic)) else None
    {
      Deliver(topic);
      if !pool {
        return None;
      }
      return Some(Payload(instance, topic));
    }

    method PublishLocal(topic: string)
      modifies this
      ensures local == old(local) + [topic]
    {
      Deliver(topic);
    }

    /** One turn of the listening loop. */
    method OnNotification(payload: string)
      modifies this
      ensures var t := ForeignTopic(instance, payload);
        local == if t.Some? then old(local) + [t.value] else old(local)
    {
      var topic := ForeignTopic(instance, payload);
      if topic.Some? {
        Deliver(topic.value);
      }
    }
  }
}
