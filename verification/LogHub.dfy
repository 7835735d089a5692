/** The log hub: bounded, lossy fan-out of log rows to live subscribers. */
module LogHub {
  import opened Types

  datatype LogRow = LogRow(exec: string, service: string, state: string, level: string, message: string)
  datatype LogFilter = LogFilter(exec: string, service: string, state: string, level: string, query: string)

  const CAPACITY := 64

  predicate Contains(s: string, t: string) {
    exists i | 0 <= i <= |s| :: t <= s[i..]
  }

  /** An empty filter field matches everything. */
  predicate MatchesLogFilter(row: LogRow, f: LogFilter) {
    && (f.exec != "" ==> row.exec == f.exec)
    && (f.service != "" ==> row.service == f.service)
    && (f.state != "" ==> row.state == f.state)
    && (f.level != "" ==> row.level == f.level)
    && (f.query != "" ==> Contains(row.message, f.query))
  }

  /** The query is found exactly in messages that have it as a part. */
  lemma ContainsExactly(s: string, t: string)
    ensures Contains(s, t) <==> exists a, b :: s == a + t + b
  {
    if Contains(s, t) {
      var i :| 0 <= i <= |s| && t <= s[i..];
      assert s == s[..i] + t + s[i + |t|..];
    }
    forall a, b | s == a + t + b ensures Contains(s, t) {
      assert s[|a|..] == t + b;
    }
  }

  /** A row is excluded exactly by a field of the filter that is set and differs, or a query that is set and is
      no part of the message. */
  lemma ExcludedExactly(row: LogRow, f: LogFilter)
    ensures !MatchesLogFilter(row, f) <==>
      || f.exec !in {"", row.exec} || f.service !in {"", row.service}
      || f.state !in {"", row.state} || f.level !in {"", row.level}
      || (forall a, b :: row.message != a + f.query + b)
  {
    ContainsExactly(row.message, f.query);
    if f.query == "" {
      assert row.message == row.message + f.query + "";
    }
  }

  // ----- one subscription

  /** `buffer` is the channel; `received` is what the subscriber has taken from it. */
  datatype Feed = Feed(filter: LogFilter, open: bool, buffer: seq<LogRow>, received: seq<LogRow>)

  function Opened(f: LogFilter): Feed {
    Feed(f, true, [], [])
  }

  /** A send that never blocks: a full channel drops the row. */
  function OnPublish(feed: Feed, row: LogRow): (r: Feed)
    ensures r.filter == feed.filter && r.open == feed.open && r.received == feed.received
  {
    if MatchesLogFilter(row, feed.filter) && |feed.buffer| < CAPACITY then feed.(buffer := feed.buffer + [row])
    else feed
  }

  function OnReceive(feed: Feed): (r: Feed)
    ensures r.filter == feed.filter && r.open == feed.open
  {
    if feed.buffer == [] then feed
    else feed.(buffer := feed.buffer[1..], received := feed.received + [feed.buffer[0]])
  }

  /** All rows that reached the subscriber or will. */
  function Delivered(feed: Feed): seq<LogRow> {
    feed.received + feed.buffer
  }

  predicate Subsequence(a: seq<LogRow>, b: seq<LogRow>) {
    a == [] || (b != [] && (if a[|a| - 1] == b[|b| - 1] then Subsequence(a[..|a| - 1], b[..|b| - 1])
                            else Subsequence(a, b[..|b| - 1])))
  }

  lemma SubsequenceGrows(a: seq<LogRow>, b: seq<LogRow>, row: LogRow)
    requires Subsequence(a, b)
    ensures Subsequence(a + [row], b + [row])
  {
    assert (a + [row])[..|a|] == a && (b + [row])[..|b|] == b;
  }

  lemma {:induction false} SubsequenceDropsLast(a: seq<LogRow>, b: seq<LogRow>)
    requires a != [] && Subsequence(a, b)
    ensures Subsequence(a[..|a| - 1], b)
    decreases |b|, 0
  {
    var front := a[..|a| - 1];
    if a[|a| - 1] == b[|b| - 1] {
      SubsequenceSkips(front, b[..|b| - 1], b[|b| - 1]);
      assert b[..|b| - 1] + [b[|b| - 1]] == b;
    } else {
      SubsequenceDropsLast(a, b[..|b| - 1]);
      SubsequenceSkips(front, b[..|b| - 1], b[|b| - 1]);
      assert b[..|b| - 1] + [b[|b| - 1]] == b;
    }
  }

  lemma {:induction false} SubsequenceSkips(a: seq<LogRow>, b: seq<LogRow>, row: LogRow)
    requires Subsequence(a, b)
    ensures Subsequence(a, b + [row])
    decreases |b|, 1
  {
    assert (b + [row])[..|b|] == b;
    if a != [] && a[|a| - 1] == row {
      SubsequenceDropsLast(a, b);
    }
  }

  // ----- the hub as a transition system

  /** All channels ever made, by subscriber, and the subscribers now registered. */
  datatype HubState = HubState(feeds: map<nat, Feed>, registered: set<nat>)

  /** Unsubscribing is two steps: the subscriber leaves the hub under its lock, and its channel is closed
      after the lock is released, so other steps may come between. */
  datatype Action =
    | Subscribe(id: nat, filter: LogFilter)
    | Leave(id: nat)
    | Close(id: nat)
    | Publish(row: LogRow)
    | Receive(id: nat)

  /** Ids are never used twice, and each subscriber unsubscribes at most once. */
  predicate Enabled(h: HubState, a: Action) {
    match a
    case Subscribe(id, _) => id !in h.feeds
    case Leave(id) => id in h.registered
    case Close(id) => id in h.feeds && id !in h.registered && h.feeds[id].open
    case Publish(_) => true
    case Receive(id) => id in h.feeds && h.feeds[id].buffer != []
  }

  function Step(h: HubState, a: Action): HubState
    requires Enabled(h, a)
  {
    match a
    case Subscribe(id, f) => HubState(h.feeds[id := Opened(f)], h.registered + {id})
    case Leave(id) => h.(registered := h.registered - {id})
    case Close(id) => h.(feeds := h.feeds[id := h.feeds[id].(open := false)])
    case Publish(row) =>
      h.(feeds := map id | id in h.feeds :: if id in h.registered then OnPublish(h.feeds[id], row) else h.feeds[id])
    case Receive(id) => h.(feeds := h.feeds[id := OnReceive(h.feeds[id])])
  }

  const START := HubState(map[], {})

  function Front(actions: seq<Action>): seq<Action>
    requires actions != []
  {
    actions[..|actions| - 1]
  }

  function Last(actions: seq<Action>): Action
    requires actions != []
  {
    actions[|actions| - 1]
  }

  /** The serial orders of hub operations that can happen. */
  predicate Possible(actions: seq<Action>)
    decreases |actions|, 0
  {
    actions == [] || (Possible(Front(actions)) && Enabled(After(Front(actions)), Last(actions)))
  }

  function After(actions: seq<Action>): HubState
    requires Possible(actions)
    decreases |actions|, 1
  {
    if actions == [] then START else Step(After(Front(actions)), Last(actions))
  }

  // ----- what a subscriber is owed, read off the operations alone

  function FilterOf(actions: seq<Action>, id: nat): Option<LogFilter> {
    if actions == [] then None
    else if Last(actions).Subscribe? && Last(actions).id == id then Some(Last(actions).filter)
    else FilterOf(Front(actions), id)
  }

  /** Subscribed, and not yet unsubscribed. */
  predicate Live(actions: seq<Action>, id: nat) {
    actions != [] &&
    match Last(actions)
    case Subscribe(other, _) => other == id || Live(Front(actions), id)
    case Leave(other) => other != id && Live(Front(actions), id)
    case _ => Live(Front(actions), id)
  }

  /** The last operation publishes a row the subscriber is live for and asked for. */
  predicate Owed(actions: seq<Action>, id: nat)
    requires actions != []
  {
    && Last(actions).Publish? && Live(Front(actions), id) && FilterOf(Front(actions), id).Some?
    && MatchesLogFilter(Last(actions).row, FilterOf(Front(actions), id).value)
  }

  /** The matching rows published between the subscriber's subscribe and unsubscribe, in order. */
  function Window(actions: seq<Action>, id: nat): seq<LogRow> {
    if actions == [] then []
    else Window(Front(actions), id) + (if Owed(actions, id) then [Last(actions).row] else [])
  }

  // ----- over every serial order

  /** The state agrees with the operations on a subscriber: whether it has a channel, with which filter, and
      whether it is registered, in which case its channel is open. */
  predicate Tracks(actions: seq<Action>, h: HubState, id: nat) {
    && FilterOf(actions, id) == (if id in h.feeds then Some(h.feeds[id].filter) else None)
    && (id in h.registered <==> Live(actions, id))
    && (id in h.registered ==> id in h.feeds && h.feeds[id].open)
  }

  lemma {:induction false} HubTracks(actions: seq<Action>, id: nat)
    requires Possible(actions)
    ensures Tracks(actions, After(actions), id)
  {
    hide OnPublish, OnReceive, Owed;
    if actions != [] {
      HubTracks(Front(actions), id);
    }
  }

  /** In every serial order, whenever a row is published every registered channel is open, and no other
      channel is touched. */
  lemma SendsHitOpenChannels(actions: seq<Action>, k: nat)
    requires Possible(actions) && k < |actions| && actions[k].Publish?
    ensures Possible(actions[..k]) && Possible(actions[..k + 1])
    ensures var (h, h') := (After(actions[..k]), After(actions[..k + 1]));
      && h'.feeds.Keys == h.feeds.Keys
      && (forall id :: id in h.registered ==> id in h.feeds && h.feeds[id].open)
      && (forall id :: id in h.feeds && h'.feeds[id] != h.feeds[id] ==> h.feeds[id].open)
  {
    hide OnPublish;
    PrefixPossible(actions, k);
    PrefixPossible(actions, k + 1);
    assert Front(actions[..k + 1]) == actions[..k];
    var h := After(actions[..k]);
    forall id | id in h.registered ensures id in h.feeds && h.feeds[id].open {
      HubTracks(actions[..k], id);
    }
  }

  lemma {:induction false} PrefixPossible(actions: seq<Action>, k: nat)
    requires Possible(actions) && k <= |actions|
    ensures Possible(actions[..k])
  {
    if k < |actions| {
      PrefixPossible(Front(actions), k);
      assert Front(actions)[..k] == actions[..k];
    } else {
      assert actions[..k] == actions;
    }
  }

  lemma ReceiveKeepsDelivered(feed: Feed)
    ensures Delivered(OnReceive(feed)) == Delivered(feed)
  {
    if feed.buffer != [] {
      assert feed.received + [feed.buffer[0]] + feed.buffer[1..] == feed.received + feed.buffer;
    }
  }

  lemma AcceptedIsDelivered(feed: Feed, row: LogRow)
    requires MatchesLogFilter(row, feed.filter) && |feed.buffer| < CAPACITY
    ensures Delivered(OnPublish(feed, row)) == Delivered(feed) + [row]
  {
    assert feed.received + (feed.buffer + [row]) == Delivered(feed) + [row];
  }

  /** The subscriber's last owed row, if any, met a full channel. */
  predicate MetFull(actions: seq<Action>, id: nat)
    requires actions != [] && Possible(actions)
  {
    var h := After(Front(actions));
    Owed(actions, id) && id in h.feeds && |h.feeds[id].buffer| >= CAPACITY
  }

  /** One operation's effect on one subscriber, against what it is owed. */
  lemma OneOperation(actions: seq<Action>, id: nat)
    requires actions != [] && Possible(actions) && FilterOf(Front(actions), id).Some?
    ensures var (h, h') := (After(Front(actions)), After(actions));
      && id in h.feeds && id in h'.feeds
      && Delivered(h'.feeds[id]) ==
         Delivered(h.feeds[id]) + (if Owed(actions, id) && !MetFull(actions, id) then [Last(actions).row] else [])
      && (|h.feeds[id].buffer| <= CAPACITY ==> |h'.feeds[id].buffer| <= CAPACITY)
  {
    HubTracks(Front(actions), id);
    var h, a := After(Front(actions)), Last(actions);
    ReceiveKeepsDelivered(h.feeds[id]);
    if a.Publish? && MatchesLogFilter(a.row, h.feeds[id].filter) && |h.feeds[id].buffer| < CAPACITY {
      AcceptedIsDelivered(h.feeds[id], a.row);
    }
  }

  lemma {:induction false} NothingOwedBefore(actions: seq<Action>, id: nat)
    requires FilterOf(actions, id).None?
    ensures Window(actions, id) == [] && !Live(actions, id)
  {
    if actions != [] {
      NothingOwedBefore(Front(actions), id);
    }
  }

  /** Over every serial order of the hub's operations: what a subscriber got and still has buffered is, in
      order, part of the matching rows published between its own subscribe and unsubscribe. */
  lemma {:induction false} DeliveredInOrder(actions: seq<Action>, id: nat)
    requires Possible(actions) && id in After(actions).feeds
    ensures var feed := After(actions).feeds[id];
            |feed.buffer| <= CAPACITY && Subsequence(Delivered(feed), Window(actions, id))
  {
    hide Step, Enabled, Subsequence;
    HubTracks(actions, id);
    if FilterOf(Front(actions), id).None? {
      FirstSeen(actions, id);
    } else {
      HubTracks(Front(actions), id);
      DeliveredInOrder(Front(actions), id);
      OneOperation(actions, id);
      var before := Delivered(After(Front(actions)).feeds[id]);
      if Owed(actions, id) {
        assert before + [] == before;
        SubsequenceGrows(before, Window(Front(actions), id), Last(actions).row);
        SubsequenceSkips(before, Window(Front(actions), id), Last(actions).row);
      } else {
        assert Window(actions, id) == Window(Front(actions), id);
        assert before + [] == before;
      }
    }
  }

  lemma FirstSeen(actions: seq<Action>, id: nat)
    requires actions != [] && Possible(actions) && id in After(actions).feeds && FilterOf(Front(actions), id).None?
    ensures Delivered(After(actions).feeds[id]) == [] == Window(actions, id) && After(actions).feeds[id].buffer == []
    ensures Subsequence([], Window(actions, id)) && !Owed(actions, id)
  {
    HubTracks(actions, id);
    NothingOwedBefore(Front(actions), id);
  }

  /** No row the subscriber was owed was published while its channel was full. */
  predicate NeverMetFull(actions: seq<Action>, id: nat)
    requires Possible(actions)
  {
    actions == [] || (NeverMetFull(Front(actions), id) && !MetFull(actions, id))
  }

  /** A subscriber gets all it was owed exactly when none of it met a full channel; otherwise it gets less. */
  lemma {:induction false} LosslessExactlyWhenNeverFull(actions: seq<Action>, id: nat)
    requires Possible(actions) && id in After(actions).feeds
    ensures var delivered := Delivered(After(actions).feeds[id]);
      && (delivered == Window(actions, id) <==> NeverMetFull(actions, id))
      && |delivered| <= |Window(actions, id)|
      && (!NeverMetFull(actions, id) ==> |delivered| < |Window(actions, id)|)
  {
    hide Step, Enabled;
    HubTracks(actions, id);
    if FilterOf(Front(actions), id).None? {
      FirstSeen(actions, id);
      NeverFullBefore(Front(actions), id);
    } else {
      HubTracks(Front(actions), id);
      LosslessExactlyWhenNeverFull(Front(actions), id);
      OneOperation(actions, id);
      var (before, window) := (Delivered(After(Front(actions)).feeds[id]), Window(Front(actions), id));
      if Owed(actions, id) {
        var row := Last(actions).row;
        assert (before + [row])[..|before|] == before && (window + [row])[..|window|] == window;
      }
    }
  }

  lemma {:induction false} NeverFullBefore(actions: seq<Action>, id: nat)
    requires Possible(actions) && FilterOf(actions, id).None?
    ensures NeverMetFull(actions, id)
  {
    hide Step, Enabled;
    if actions != [] {
      NeverFullBefore(Front(actions), id);
    }
  }

  // ----- the hub as an object

  class LogSubscriber {
    var feed: Feed

    constructor (f: LogFilter)
      ensures feed == Opened(f)
    {
      feed := Opened(f);
    }

    /** Send without blocking, if the row matches. */
    method Offer(row: LogRow)
      modifies this
      ensures feed == OnPublish(old(feed), row)
    {
      if MatchesLogFilter(row, feed.filter) {
        if |feed.buffer| < CAPACITY {
          feed := feed.(buffer := feed.buffer + [row]);
        }
      }
    }

    /** Take the next row, if one is buffered. */
    method Receive(ghost hub: Hub, ghost id: nat) returns (row: Option<LogRow>)
      requires hub.Valid() && id < |hub.known| && hub.known[id] == this
      modifies this
      ensures hub.Valid()
      ensures row.None? <==> old(feed).buffer == []
      ensures row.None? ==> hub.Contents() == old(hub.Contents())
      ensures row.Some? ==> row.value == old(feed).buffer[0] && hub.Contents() == Step(old(hub.Contents()), Action.Receive(id))
    {
      ghost var before := hub.Contents();
      if |feed.buffer| == 0 {
        return None;
      }
      row := Some(feed.buffer[0]);
      feed := feed.(buffer := feed.buffer[1..], received := feed.received + [feed.buffer[0]]);
      assert hub.Contents() == Step(before, Action.Receive(id));
    }
  }

  class Hub {
    var subscribers: set<LogSubscriber>
    /** Every subscriber ever made; its position is its id. */
    ghost var known: seq<LogSubscriber>

    /** Every subscriber has one id, and every registered channel is open. */
    ghost predicate Valid()
      reads this, known
    {
      && NoDuplicates(known)
      && (forall s :: s in subscribers ==> s in known && s.feed.open)
    }

    ghost function Contents(): HubState
      reads this, known
    {
      HubState(map id: nat | id < |known| :: known[id].feed, set id: nat | id < |known| && known[id] in subscribers)
    }

    constructor ()
      ensures Valid() && Contents() == START
    {
      subscribers, known := {}, [];
    }

    method Subscribe(f: LogFilter) returns (s: LogSubscriber, ghost id: nat)
      requires Valid()
      modifies this
      ensures Valid() && fresh(s) && known == old(known) + [s] && id == |old(known)|
      ensures Enabled(old(Contents()), Action.Subscribe(id, f))
      ensures Contents() == Step(old(Contents()), Action.Subscribe(id, f))
    {
      ghost var before := Contents();
      s := new LogSubscriber(f);
      id, known := |known|, known + [s];
      subscribers := subscribers + {s};
      assert Contents().feeds == before.feeds[id := Opened(f)];
      assert Contents().registered == before.registered + {id};
    }

    /** Called once per subscriber: the channel leaves the hub before it is closed. */
    method Unsubscribe(s: LogSubscriber, ghost id: nat)
      requires Valid() && id < |known| && known[id] == s && s in subscribers
      modifies this, s
      ensures Valid() && known == old(known)
      ensures Enabled(old(Contents()), Leave(id)) && Enabled(Step(old(Contents()), Leave(id)), Close(id))
      ensures Contents() == Step(Step(old(Contents()), Leave(id)), Close(id))
    {
      ghost var before := Contents();
      subscribers := subscribers - {s};
      assert Contents().registered == before.registered - {id};
      s.feed := s.feed.(open := false);
      assert Contents().feeds == before.feeds[id := before.feeds[id].(open := false)];
    }

    method Publish(row: LogRow)
      requires Valid()
      modifies subscribers
      ensures Valid() && known == old(known) && subscribers == old(subscribers)
      ensures Contents() == Step(old(Contents()), Action.Publish(row))
    {
      hide OnPublish, NoDuplicates;
      var todo := subscribers;
      while todo != {}
        invariant todo <= subscribers && subscribers == old(subscribers) && known == old(known)
        invariant forall s :: s in known ==>
                    s.feed == if s in subscribers - todo then OnPublish(old(s.feed), row) else old(s.feed)
        decreases |todo|
      {
        var sub :| sub in todo;
        sub.Offer(row);
        todo := todo - {sub};
      }
      assert Contents().feeds == Step(old(Contents()), Action.Publish(row)).feeds;
    }
  }
}
