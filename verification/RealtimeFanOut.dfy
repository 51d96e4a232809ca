/** The hubs of all replicas (`backend/src/realtime.rs`) over one database, as a state machine: any
    interleaving of publishing, spawned notifications that succeed or fail, listeners that connect, receive
    and are lost. The database copies a notification to every connection listening when it runs, and may
    drop what a lost connection had not yet received, but duplicates nothing. */
module RealtimeFanOut {
  import opened Wrappers
  import opened Realtime

  /** A topic in a hub's log or a payload in a listener's queue, with the number of its publication. */
  datatype Item = Item(text: string, serial: nat)

  datatype Hub = Hub(pool: bool, listening: bool, inbox: seq<Item>, log: seq<Item>)

  /** How far a publication has got beyond its own hub. */
  datatype Fate = Local | Spawned | Failed | Notified(audience: set<string>)

  datatype Publication = Publication(from: string, topic: string, fate: Fate)

  /** `lost` holds the notifications dropped with a lost connection: which hub, and which publication. */
  datatype State = State(hubs: map<string, Hub>, pubs: seq<Publication>, lost: set<(string, nat)>)

  datatype Action =
    | Publish(tag: string, topic: string) | PublishLocal(tag: string, topic: string)
    | Notify(serial: nat) | NotifyFails(serial: nat)
    | Listen(tag: string) | Receive(tag: string) | Lose(tag: string)

  predicate Enabled(s: State, a: Action) {
    match a
    case Publish(tag, _) => tag in s.hubs
    case PublishLocal(tag, _) => tag in s.hubs
    case Notify(k) => k < |s.pubs| && s.pubs[k].fate == Spawned
    case NotifyFails(k) => k < |s.pubs| && s.pubs[k].fate == Spawned
    case Listen(tag) => tag in s.hubs && s.hubs[tag].pool && !s.hubs[tag].listening
    case Receive(tag) => tag in s.hubs && s.hubs[tag].inbox != []
    case Lose(tag) => tag in s.hubs && s.hubs[tag].listening
  }

  function Delivered(h: Hub, topic: string, serial: nat): Hub {
    h.(log := h.log + [Item(topic, serial)])
  }

  function Heard(h: Hub, tag: string): Hub
    requires h.inbox != []
  {
    var first := h.inbox[0];
    var topic := ForeignTopic(tag, first.text);
    var rest := h.(inbox := h.inbox[1..]);
    if topic.Some? then Delivered(rest, topic.value, first.serial) else rest
  }

  function Audience(s: State): set<string> {
    set q | q in s.hubs && s.hubs[q].listening
  }

  function Next(s: State, a: Action): State
    requires Enabled(s, a)
  {
    match a
    case Publish(tag, topic) =>
      s.(hubs := s.hubs[tag := Delivered(s.hubs[tag], topic, |s.pubs|)],
         pubs := s.pubs + [Publication(tag, topic, if s.hubs[tag].pool then Spawned else Local)])
    case PublishLocal(tag, topic) =>
      s.(hubs := s.hubs[tag := Delivered(s.hubs[tag], topic, |s.pubs|)],
         pubs := s.pubs + [Publication(tag, topic, Local)])
    case Notify(k) =>
      var payload := Item(Payload(s.pubs[k].from, s.pubs[k].topic), k);
      s.(hubs := map q | q in s.hubs ::
                   if s.hubs[q].listening then s.hubs[q].(inbox := s.hubs[q].inbox + [payload]) else s.hubs[q],
         pubs := s.pubs[k := s.pubs[k].(fate := Notified(Audience(s)))])
    case NotifyFails(k) => s.(pubs := s.pubs[k := s.pubs[k].(fate := Failed)])
    case Listen(tag) => s.(hubs := s.hubs[tag := s.hubs[tag].(listening := true)])
    case Receive(tag) => s.(hubs := s.hubs[tag := Heard(s.hubs[tag], tag)])
    case Lose(tag) =>
      s.(hubs := s.hubs[tag := s.hubs[tag].(listening := false, inbox := [])],
         lost := s.lost + set i | 0 <= i < |s.hubs[tag].inbox| :: (tag, s.hubs[tag].inbox[i].serial))
  }

  /** Distinct tags are the keys of a map; a tag is a UUID without punctuation, so free of colons. */
  ghost predicate Initial(s: State) {
    && s.pubs == [] && s.lost == {}
    && forall q :: q in s.hubs ==> ColonFree(q) && s.hubs[q].inbox == [] && s.hubs[q].log == []
  }

  function After(s: State, actions: seq<Action>): Option<State> {
    if actions == [] then Some(s)
    else
      var before := After(s, actions[..|actions| - 1]);
      var a := actions[|actions| - 1];
      if before.None? || !Enabled(before.value, a) then None else Some(Next(before.value, a))
  }

  // ---- Counting --------------------------------------------------------------------------------

  function Count(s: seq<Item>, k: nat): nat {
    if s == [] then 0 else Count(s[..|s| - 1], k) + if s[|s| - 1].serial == k then 1 else 0
  }

  lemma CountLast(s: seq<Item>, x: Item, k: nat)
    ensures Count(s + [x], k) == Count(s, k) + if x.serial == k then 1 else 0
  {
    assert (s + [x])[..|s|] == s;
  }

  lemma {:induction false} CountFirst(s: seq<Item>, k: nat)
    requires s != []
    ensures Count(s, k) == Count(s[1..], k) + if s[0].serial == k then 1 else 0
  {
    var last := |s| - 1;
    if last > 0 {
      CountFirst(s[..last], k);
      assert s[1..] == s[..last][1..] + [s[last]];
      CountLast(s[..last][1..], s[last], k);
    } else {
      assert s[..last] == s[1..] == [];
    }
  }

  lemma {:induction false} CountPositive(s: seq<Item>, k: nat)
    ensures Count(s, k) > 0 <==> exists i :: 0 <= i < |s| && s[i].serial == k
  {
    if s != [] {
      CountPositive(s[..|s| - 1], k);
    }
  }

  // ---- What every step keeps -------------------------------------------------------------------

  /** Whether `q` must have, or still have coming, a copy of `k`. */
  predicate Owed(s: State, q: string, k: nat)
    requires k < |s.pubs|
  {
    s.pubs[k].fate.Notified? && q in s.pubs[k].fate.audience && (q, k) !in s.lost
  }

  /** Hub `q` holds the right text for everything it has delivered or is to receive. */
  ghost predicate Texts(s: State, q: string)
    requires q in s.hubs
  {
    && (forall i :: 0 <= i < |s.hubs[q].log| ==>
          s.hubs[q].log[i].serial < |s.pubs| && s.hubs[q].log[i].text == s.pubs[s.hubs[q].log[i].serial].topic)
    && forall i :: 0 <= i < |s.hubs[q].inbox| ==>
         && s.hubs[q].inbox[i].serial < |s.pubs|
         && s.pubs[s.hubs[q].inbox[i].serial].fate.Notified?
         && s.hubs[q].inbox[i].text == Payload(s.pubs[s.hubs[q].inbox[i].serial].from, s.pubs[s.hubs[q].inbox[i].serial].topic)
  }

  /** Publication `k` is counted right at hub `q`. */
  predicate Counted(s: State, q: string, k: nat)
    requires q in s.hubs && k < |s.pubs|
  {
    if q == s.pubs[k].from then Count(s.hubs[q].log, k) == 1
    else Count(s.hubs[q].log, k) + Count(s.hubs[q].inbox, k) == if Owed(s, q, k) then 1 else 0
  }

  ghost predicate LostWasSent(s: State) {
    forall q, k :: (q, k) in s.lost ==> k < |s.pubs| && s.pubs[k].fate.Notified?
  }

  ghost predicate Invariant(s: State) {
    && (forall q :: q in s.hubs ==> ColonFree(q) && Texts(s, q))
    && (forall k :: 0 <= k < |s.pubs| ==> s.pubs[k].from in s.hubs)
    && (forall q, k :: q in s.hubs && 0 <= k < |s.pubs| ==> Counted(s, q, k))
    && LostWasSent(s)
  }

  lemma NoneYet(s: State, q: string)
    requires q in s.hubs && Texts(s, q)
    ensures Count(s.hubs[q].log, |s.pubs|) == Count(s.hubs[q].inbox, |s.pubs|) == 0
  {
    CountPositive(s.hubs[q].log, |s.pubs|);
    CountPositive(s.hubs[q].inbox, |s.pubs|);
  }

  lemma PublishTexts(s: State, a: Action, q: string)
    requires Invariant(s) && Enabled(s, a) && (a.Publish? || a.PublishLocal?) && q in s.hubs
    ensures Texts(Next(s, a), q)
  {
  }

  lemma PublishCounts(s: State, a: Action, q: string, k: nat)
    requires Invariant(s) && Enabled(s, a) && (a.Publish? || a.PublishLocal?) && q in s.hubs && k <= |s.pubs|
    ensures Counted(Next(s, a), q, k)
  {
    hide Count;
    NoneYet(s, q);
    CountLast(s.hubs[q].log, Item(a.topic, |s.pubs|), k);
    assert k < |s.pubs| ==> Counted(s, q, k);
    assert (q, |s.pubs|) !in s.lost;
  }

  lemma NotifyTexts(s: State, a: Action, q: string)
    requires Invariant(s) && Enabled(s, a) && a.Notify? && q in s.hubs
    ensures Texts(Next(s, a), q)
  {
  }

  lemma NotifyCounts(s: State, a: Action, q: string, k: nat)
    requires Invariant(s) && Enabled(s, a) && a.Notify? && q in s.hubs && k < |s.pubs|
    ensures Counted(Next(s, a), q, k)
  {
    hide Count, Texts;
    var payload := Item(Payload(s.pubs[a.serial].from, s.pubs[a.serial].topic), a.serial);
    CountLast(s.hubs[q].inbox, payload, k);
    assert Counted(s, q, k);
    assert (q, a.serial) !in s.lost;
  }

  lemma ReceiveTexts(s: State, a: Action, q: string)
    requires Invariant(s) && Enabled(s, a) && a.Receive? && q in s.hubs
    ensures Texts(Next(s, a), q)
  {
    hide Counted, Payload, ForeignTopic;
    var h := s.hubs[a.tag];
    assert Texts(s, a.tag) && Texts(s, q);
    var first := h.inbox[0];
    var from := s.pubs[first.serial].from;
    assert ColonFree(from);
    PayloadRoundTrip(from, s.pubs[first.serial].topic, a.tag);
  }

  lemma ReceiveCounts(s: State, a: Action, q: string, k: nat)
    requires Invariant(s) && Enabled(s, a) && a.Receive? && q in s.hubs && k < |s.pubs|
    ensures Counted(Next(s, a), q, k)
  {
    hide Count, Payload, ForeignTopic;
    assert Counted(s, q, k);
    if q == a.tag {
      var h := s.hubs[q];
      assert Texts(s, q);
      var first := h.inbox[0];
      var from := s.pubs[first.serial].from;
      PayloadRoundTrip(from, s.pubs[first.serial].topic, q);
      CountFirst(h.inbox, k);
      CountLast(h.log, Item(s.pubs[first.serial].topic, first.serial), k);
    }
  }

  lemma LoseCounts(s: State, a: Action, q: string, k: nat)
    requires Invariant(s) && Enabled(s, a) && a.Lose? && q in s.hubs && k < |s.pubs|
    ensures Counted(Next(s, a), q, k)
  {
    assert Counted(s, q, k);
    CountPositive(s.hubs[q].inbox, k);
    assert Count([], k) == 0;
    hide Count, Texts;
    var t := Next(s, a);
    if q == a.tag {
      assert (q, k) in t.lost <==> (q, k) in s.lost || exists i :: 0 <= i < |s.hubs[q].inbox| && s.hubs[q].inbox[i].serial == k;
    }
  }

  lemma LoseKeepsSent(s: State, a: Action)
    requires Invariant(s) && Enabled(s, a) && a.Lose?
    ensures LostWasSent(Next(s, a))
  {
    hide Counted;
    assert Texts(s, a.tag);
  }

  lemma RestTexts(s: State, a: Action, q: string)
    requires Invariant(s) && Enabled(s, a) && (a.NotifyFails? || a.Listen? || a.Lose?) && q in s.hubs
    ensures Texts(Next(s, a), q)
  {
    hide Counted;
    assert Texts(s, q);
  }

  lemma RestCounts(s: State, a: Action, q: string, k: nat)
    requires Invariant(s) && Enabled(s, a) && (a.NotifyFails? || a.Listen?) && q in s.hubs && k < |s.pubs|
    ensures Counted(Next(s, a), q, k)
  {
    hide Count, Texts;
    assert Counted(s, q, k);
  }

  lemma StepTexts(s: State, a: Action, q: string)
    requires Invariant(s) && Enabled(s, a) && q in s.hubs
    ensures q in Next(s, a).hubs && Texts(Next(s, a), q)
  {
    hide Invariant, Texts;
    match a
    case Publish(_, _) => PublishTexts(s, a, q);
    case PublishLocal(_, _) => PublishTexts(s, a, q);
    case Notify(_) => NotifyTexts(s, a, q);
    case Receive(_) => ReceiveTexts(s, a, q);
    case _ => RestTexts(s, a, q);
  }

  lemma StepCounts(s: State, a: Action, q: string, k: nat)
    requires Invariant(s) && Enabled(s, a) && q in s.hubs && k < |Next(s, a).pubs|
    ensures q in Next(s, a).hubs && Counted(Next(s, a), q, k)
  {
    hide Invariant, Counted;
    match a
    case Publish(_, _) => PublishCounts(s, a, q, k);
    case PublishLocal(_, _) => PublishCounts(s, a, q, k);
    case Notify(_) => NotifyCounts(s, a, q, k);
    case Receive(_) => ReceiveCounts(s, a, q, k);
    case Lose(_) => LoseCounts(s, a, q, k);
    case _ => RestCounts(s, a, q, k);
  }

  lemma SameHubs(s: State, a: Action)
    requires Enabled(s, a)
    ensures Next(s, a).hubs.Keys == s.hubs.Keys
    ensures forall k :: 0 <= k < |s.pubs| ==> k < |Next(s, a).pubs| && Next(s, a).pubs[k].from == s.pubs[k].from
    ensures forall k :: |s.pubs| <= k < |Next(s, a).pubs| ==> Next(s, a).pubs[k].from in s.hubs
  {
  }

  lemma StepKeepsSent(s: State, a: Action)
    requires Invariant(s) && Enabled(s, a)
    ensures LostWasSent(Next(s, a))
  {
    hide Counted, Texts;
    if a.Lose? {
      LoseKeepsSent(s, a);
    }
  }

  lemma StepKeepsInvariant(s: State, a: Action)
    requires Invariant(s) && Enabled(s, a)
    ensures Invariant(Next(s, a))
  {
    SameHubs(s, a);
    StepKeepsSent(s, a);
    hide Texts, Counted, Next, Enabled, LostWasSent;
    var t := Next(s, a);
    forall q | q in t.hubs ensures ColonFree(q) && Texts(t, q) {
      assert q in s.hubs.Keys;
      StepTexts(s, a, q);
    }
    forall q, k | q in t.hubs && 0 <= k < |t.pubs| ensures Counted(t, q, k) {
      assert q in s.hubs.Keys;
      StepCounts(s, a, q, k);
    }
  }

  lemma {:induction false} RunKeepsInvariant(s: State, actions: seq<Action>)
    requires Initial(s) && After(s, actions).Some?
    ensures Invariant(After(s, actions).value)
  {
    if actions != [] {
      hide Invariant, Next, Enabled, Initial;
      RunKeepsInvariant(s, actions[..|actions| - 1]);
      StepKeepsInvariant(After(s, actions[..|actions| - 1]).value, actions[|actions| - 1]);
    }
  }

  // ---- Fan-out ---------------------------------------------------------------------------------

  /** In every run, a publication is delivered exactly once by its own hub and at most once by any other;
      by another hub exactly when the notification succeeded while that hub was listening, was not lost
      with its connection, and has been received. A local publication never crosses. */
  lemma FanOut(s: State, actions: seq<Action>, q: string, k: nat)
    requires Initial(s) && After(s, actions).Some?
    requires q in After(s, actions).value.hubs && k < |After(s, actions).value.pubs|
    ensures var (t, p) := (After(s, actions).value, After(s, actions).value.pubs[k]);
      && (q == p.from ==> Count(t.hubs[q].log, k) == 1)
      && (q != p.from ==> Count(t.hubs[q].log, k) <= 1)
      && (q != p.from ==> (Count(t.hubs[q].log, k) == 1 <==> Owed(t, q, k) && Count(t.hubs[q].inbox, k) == 0))
      && (q != p.from && p.fate == Local ==> Count(t.hubs[q].log, k) == 0)
  {
    RunKeepsInvariant(s, actions);
    hide After, Texts;
    assert Counted(After(s, actions).value, q, k);
  }

  /** And every hub delivers it under the topic it was published with, whatever characters that holds. */
  lemma FanOutTopic(s: State, actions: seq<Action>, q: string, i: nat)
    requires Initial(s) && After(s, actions).Some?
    requires q in After(s, actions).value.hubs && i < |After(s, actions).value.hubs[q].log|
    ensures var t := After(s, actions).value;
      var item := t.hubs[q].log[i];
      item.serial < |t.pubs| && item.text == t.pubs[item.serial].topic
  {
    RunKeepsInvariant(s, actions);
    hide After, Counted;
    assert Texts(After(s, actions).value, q);
  }

  // ---- Listening throughout --------------------------------------------------------------------

  predicate AlreadyNotified(s: State, k: nat) {
    k < |s.pubs| && s.pubs[k].fate.Notified?
  }

  /** Everything notified since `before` is owed to `q`, which still listens. */
  ghost predicate Attentive(before: State, s: State, q: string) {
    && q in s.hubs && s.hubs[q].listening
    && forall k :: 0 <= k < |s.pubs| && s.pubs[k].fate.Notified? && !AlreadyNotified(before, k) ==> Owed(s, q, k)
  }

  lemma StepStaysAttentive(before: State, s: State, a: Action, q: string)
    requires Attentive(before, s, q) && LostWasSent(s) && Enabled(s, a) && a != Lose(q)
    ensures Attentive(before, Next(s, a), q)
  {
  }

  lemma {:induction false} StaysAttentive(s: State, actions: seq<Action>, more: seq<Action>, q: string)
    requires Initial(s) && After(s, actions + more).Some? && Lose(q) !in more
    requires After(s, actions).Some? && q in After(s, actions).value.hubs && After(s, actions).value.hubs[q].listening
    ensures Attentive(After(s, actions).value, After(s, actions + more).value, q)
  {
    if more == [] {
      assert actions + more == actions;
    } else {
      var whole, last := actions + more, |more| - 1;
      assert whole[..|whole| - 1] == actions + more[..last];
      assert more[last] in more;
      hide Attentive, Next, Enabled, Initial, LostWasSent;
      StaysAttentive(s, actions, more[..last], q);
      RunKeepsInvariant(s, whole[..|whole| - 1]);
      StepStaysAttentive(After(s, actions).value, After(s, whole[..|whole| - 1]).value, whole[|whole| - 1], q);
    }
  }

  /** A replica that listens from before a notification on, and never loses its connection, delivers it
      exactly once as soon as its queue is read. */
  lemma ListeningThroughout(s: State, actions: seq<Action>, more: seq<Action>, q: string, k: nat)
    requires Initial(s) && After(s, actions + more).Some? && Lose(q) !in more
    requires After(s, actions).Some? && q in After(s, actions).value.hubs && After(s, actions).value.hubs[q].listening
    requires !AlreadyNotified(After(s, actions).value, k) && AlreadyNotified(After(s, actions + more).value, k)
    requires q in After(s, actions + more).value.hubs && Count(After(s, actions + more).value.hubs[q].inbox, k) == 0
    ensures Count(After(s, actions + more).value.hubs[q].log, k) == 1
  {
    StaysAttentive(s, actions, more, q);
    hide After, Count;
    FanOut(s, actions + more, q, k);
  }

  // ---- One hub of the machine is the hub of one replica ----------------------------------------

  function Topics(log: seq<Item>): seq<string> {
    seq(|log|, i requires 0 <= i < |log| => log[i].text)
  }

  /** What the hub has delivered to its own clients is what the machine has logged for it. */
  ghost predicate Stands(e: Events, s: State)
    reads e
  {
    e.instance in s.hubs && s.hubs[e.instance].pool == e.pool && e.local == Topics(s.hubs[e.instance].log)
  }

  /** The hub's methods keep it in step with the machine: each step of its own is one call, which spawns a
      notification exactly when the machine holds one to be sent, and no other step touches it. */
  method Follow(e: Events, s: State, a: Action) returns (spawned: Option<string>)
    requires Enabled(s, a) && Stands(e, s)
    modifies e
    ensures Stands(e, Next(s, a))
    ensures spawned.Some? <==> a.Publish? && a.tag == e.instance && Next(s, a).pubs[|s.pubs|].fate == Spawned
    ensures spawned.Some? ==> spawned.value == Payload(a.tag, a.topic)
  {
    spawned := None;
    match a {
      case Publish(tag, topic) =>
        if tag == e.instance {
          spawned := e.Publish(topic);
        }
      case PublishLocal(tag, topic) =>
        if tag == e.instance {
          e.PublishLocal(topic);
        }
      case Receive(tag) =>
        if tag == e.instance {
          e.OnNotification(s.hubs[tag].inbox[0].text);
        }
      case _ =>
    }
  }

  /** So in every run: a replica's hub ends with exactly the log the machine gives it. */
  method Replay(tag: string, s: State, actions: seq<Action>) returns (e: Events)
    requires Initial(s) && tag in s.hubs && After(s, actions).Some?
    ensures fresh(e) && e.instance == tag && Stands(e, After(s, actions).value)
  {
    e := new Events(tag, s.hubs[tag].pool);
    var t := s;
    assert actions[..|actions|] == actions && actions[..0] == [];
    RunsUpTo(s, actions, 0);
    for k := 0 to |actions|
      invariant After(s, actions[..k]) == Some(t) && Stands(e, t)
      invariant fresh(e) && e.instance == tag
    {
      RunsUpTo(s, actions, k);
      RunsUpTo(s, actions, k + 1);
      assert actions[..k + 1][..k] == actions[..k];
      var spawned := Follow(e, t, actions[k]);
      t := Next(t, actions[k]);
    }
  }

  lemma {:induction false} RunsUpTo(s: State, actions: seq<Action>, k: nat)
    requires k <= |actions| && After(s, actions).Some?
    ensures After(s, actions[..k]).Some?
    decreases |actions|
  {
    hide Next, Enabled;
    if k == |actions| {
      assert actions[..k] == actions;
    } else {
      RunsUpTo(s, actions[..|actions| - 1], k);
      assert actions[..|actions| - 1][..k] == actions[..k];
    }
  }
}
