/** Fan-out of broadcasts to connected dashboard clients (internal/sse/hub.go). */
module SseHub {
  import opened Common

  datatype Message = Message(typ: string, data: string)

  /** What Broadcast makes of its payload; sourceId is "" when the data carries none. */
  datatype Envelope = Malformed | Envelope(message: Message, sourceId: string)

  datatype Sent = Sent(message: Message, sourceId: string)

  const BUFFER_SIZE: nat := 64

  predicate Admits(filter: string, sourceId: string) {
    filter == "" || sourceId == "" || filter == sourceId
  }

  function AdmittedOne(filter: string, s: Sent): seq<Message> {
    if Admits(filter, s.sourceId) then [s.message] else []
  }

  /** The messages of a broadcast log that a filter lets through, in order. */
  function Admitted(filter: string, log: seq<Sent>): seq<Message> {
    if log == [] then []
    else Admitted(filter, Front(log)) + AdmittedOne(filter, Last(log))
  }

  lemma AdmittedSnoc(filter: string, log: seq<Sent>, s: Sent)
    ensures Admitted(filter, log + [s]) == Admitted(filter, log) + AdmittedOne(filter, s)
  {
    assert Front(log + [s]) == log;
  }

  /** One more broadcast extends what a filter admits by at most its message. */
  lemma ExplainedLater(filter: string, log: seq<Sent>, s: Sent, stream: seq<Message>)
    requires Subsequence(stream, Admitted(filter, log))
    ensures var admitted, later := Admitted(filter, log), Admitted(filter, log + [s]);
            && later == admitted + AdmittedOne(filter, s)
            && |stream| <= |admitted|
            && Subsequence(stream, later)
            && (Admits(filter, s.sourceId) ==> Subsequence(stream + [s.message], later))
  {
    assert Admitted(filter, log) + [] == Admitted(filter, log);
    AdmittedSnoc(filter, log, s);
    SubsequenceLength(stream, Admitted(filter, log));
    SubsequenceSkip(stream, Admitted(filter, log), s.message);
    SubsequenceTake(stream, Admitted(filter, log), s.message);
  }

  /**
   The stream is a subsequence of the admitted broadcasts, and all of them exactly if the buffer
   never overflowed.
   */
  ghost predicate Follows(filter: string, seen: seq<Sent>, stream: seq<Message>, overflowed: bool) {
    && Subsequence(stream, Admitted(filter, seen))
    && (!overflowed ==> stream == Admitted(filter, seen))
    && (overflowed ==> |stream| < |Admitted(filter, seen)|)
  }

  /** A client's channel as a value, with the history of its stream. */
  datatype Client = Client(
    filter: string,
    buffer: seq<Message>,
    closed: bool,
    seen: seq<Sent>,          // broadcasts since the client registered
    consumed: seq<Message>,   // what the reader has taken
    overflowed: bool)         // an admitted message found the buffer full
  {
    ghost function Stream(): seq<Message> {
      consumed + buffer
    }

    ghost predicate Valid() {
      |buffer| <= BUFFER_SIZE && Follows(filter, seen, Stream(), overflowed)
    }

    /** What a broadcast does to the client: an admitted message is buffered if there is room. */
    ghost function Take(s: Sent): Client {
      var c := this.(seen := seen + [s]);
      if !Admits(filter, s.sourceId) then c
      else if |buffer| < BUFFER_SIZE then c.(buffer := buffer + [s.message])
      else c.(overflowed := true)
    }

    /** What the reader's receive does to it. */
    ghost function Read(): Client {
      if buffer == [] then this else this.(consumed := consumed + [buffer[0]], buffer := buffer[1..])
    }
  }

  function Connected(filter: string): Client {
    Client(filter, [], false, [], [], false)
  }

  lemma ConnectedValid(filter: string)
    ensures Connected(filter).Valid()
  {
    var c := Connected(filter);
    assert c.Stream() == [] && Admitted(filter, c.seen) == [];
    SubsequenceOfAny<Message>([]);
  }

  lemma TakenStream(c: Client, s: Sent)
    requires Admits(c.filter, s.sourceId) && |c.buffer| < BUFFER_SIZE
    ensures c.Take(s).Stream() == c.Stream() + [s.message]
  {
    assert c.consumed + (c.buffer + [s.message]) == (c.consumed + c.buffer) + [s.message];
  }

  /** How one more broadcast changes what the stream has to be compared with. */
  lemma FollowsLater(filter: string, seen: seq<Sent>, s: Sent, stream: seq<Message>, overflowed: bool)
    requires Follows(filter, seen, stream, overflowed)
    ensures !Admits(filter, s.sourceId) ==> Follows(filter, seen + [s], stream, overflowed)
    ensures Admits(filter, s.sourceId) ==> Follows(filter, seen + [s], stream, true)
    ensures Admits(filter, s.sourceId) ==> Follows(filter, seen + [s], stream + [s.message], overflowed)
  {
    ExplainedLater(filter, seen, s, stream);
    assert Admitted(filter, seen) + [] == Admitted(filter, seen);
  }

  /** Broadcasts keep every client's stream explained by what its filter admits. */
  lemma TakeKeepsValid(c: Client, s: Sent)
    requires c.Valid()
    ensures c.Take(s).Valid()
  {
    var t := c.Take(s);
    FollowsLater(c.filter, c.seen, s, c.Stream(), c.overflowed);
    if !Admits(c.filter, s.sourceId) {
      assert t.Stream() == c.Stream() && t.overflowed == c.overflowed;
    } else if |c.buffer| < BUFFER_SIZE {
      TakenStream(c, s);
      assert t.overflowed == c.overflowed;
    } else {
      assert t.Stream() == c.Stream() && t.overflowed;
    }
  }

  lemma ReadKeepsStream(c: Client)
    ensures c.Read().Stream() == c.Stream()
  {
  }

  // ---------- Every run of a client ----------

  datatype Happening = Broadcasted(s: Sent) | Reads

  ghost function Run(filter: string, run: seq<Happening>): Client {
    if run == [] then Connected(filter)
    else match Last(run)
      case Broadcasted(s) => Run(filter, Front(run)).Take(s)
      case Reads => Run(filter, Front(run)).Read()
  }

  /** Step n of the run is an admitted broadcast that found the buffer full. */
  ghost predicate DropsAt(filter: string, run: seq<Happening>, n: nat) {
    && n < |run| && run[n].Broadcasted? && Admits(filter, run[n].s.sourceId)
    && |Run(filter, run[..n]).buffer| == BUFFER_SIZE
  }

  lemma DropsAtFront(filter: string, run: seq<Happening>, n: nat)
    requires run != [] && n < |run| - 1
    ensures DropsAt(filter, Front(run), n) <==> DropsAt(filter, run, n)
  {
    assert Front(run)[..n] == run[..n];
  }

  lemma {:induction false} RunKeepsValid(filter: string, run: seq<Happening>)
    ensures Run(filter, run).Valid() && Run(filter, run).filter == filter
  {
    if run == [] {
      ConnectedValid(filter);
    } else {
      var before := Run(filter, Front(run));
      RunKeepsValid(filter, Front(run));
      ReadKeepsStream(before);
      if Last(run).Broadcasted? {
        TakeKeepsValid(before, Last(run).s);
      }
    }
  }

  lemma LastDrop(filter: string, run: seq<Happening>)
    requires run != []
    ensures (exists n :: DropsAt(filter, run, n)) <==>
            (exists n :: DropsAt(filter, Front(run), n)) || DropsAt(filter, run, |run| - 1)
  {
    if n: nat :| DropsAt(filter, Front(run), n) {
      DropsAtFront(filter, run, n);
    }
    if n: nat :| DropsAt(filter, run, n) && n < |run| - 1 {
      DropsAtFront(filter, run, n);
    }
  }

  lemma OverflowStep(filter: string, run: seq<Happening>)
    requires run != []
    ensures Run(filter, run).overflowed <==> Run(filter, Front(run)).overflowed || DropsAt(filter, run, |run| - 1)
  {
    RunKeepsValid(filter, Front(run));
    assert run[..|run| - 1] == Front(run);
  }

  lemma {:induction false} OverflowedIffDropped(filter: string, run: seq<Happening>)
    ensures Run(filter, run).overflowed <==> exists n :: DropsAt(filter, run, n)
  {
    if run != [] {
      OverflowedIffDropped(filter, Front(run));
      OverflowStep(filter, run);
      LastDrop(filter, run);
    }
  }

  /**
   In every run the client's stream is an in-order selection from the broadcasts its filter admits,
   and it is all of them exactly if no admitted broadcast ever found the buffer full.
   */
  lemma StreamCompleteIff(filter: string, run: seq<Happening>)
    ensures var c := Run(filter, run);
            && |c.buffer| <= BUFFER_SIZE
            && Subsequence(c.consumed + c.buffer, Admitted(filter, c.seen))
            && (c.consumed + c.buffer == Admitted(filter, c.seen) <==> !exists n :: DropsAt(filter, run, n))
  {
    RunKeepsValid(filter, run);
    OverflowedIffDropped(filter, run);
  }

  // ---------- Every run of the hub ----------

  /** The registered channels with their filters, and every channel there ever was. */
  datatype HubState<!C(==)> = HubState(clients: map<C, string>, channels: map<C, Client>)

  datatype HubAction<!C> =
    | Registers(ch: C, filter: string)
    | Unregisters(ch: C)
    | Broadcasts(payload: Envelope)
    | Receives(ch: C)

  ghost function Delivered<C>(h: HubState<C>, s: Sent): map<C, Client> {
    map ch | ch in h.channels :: if ch in h.clients then h.channels[ch].Take(s) else h.channels[ch]
  }

  ghost function HubStep<C>(h: HubState<C>, a: HubAction<C>): HubState<C> {
    match a
    case Registers(ch, filter) =>
      if ch in h.channels then h
      else HubState(h.clients[ch := filter], h.channels[ch := Connected(filter)])
    case Unregisters(ch) =>
      if ch !in h.channels then h
      else HubState(h.clients - {ch}, h.channels[ch := h.channels[ch].(closed := true)])
    case Broadcasts(Malformed) => h
    case Broadcasts(Envelope(message, sourceId)) => h.(channels := Delivered(h, Sent(message, sourceId)))
    case Receives(ch) =>
      if ch in h.channels then h.(channels := h.channels[ch := h.channels[ch].Read()]) else h
  }

  /** The channel's stream is explained, and it is open exactly while it is registered. */
  ghost predicate Fits<C>(h: HubState<C>, ch: C)
    requires ch in h.channels
  {
    && h.channels[ch].Valid() && (h.channels[ch].closed <==> ch !in h.clients)
    && (ch in h.clients ==> h.clients[ch] == h.channels[ch].filter)
  }

  ghost predicate Sound<C>(h: HubState<C>) {
    h.clients.Keys <= h.channels.Keys && forall ch :: ch in h.channels ==> Fits(h, ch)
  }

  lemma ClosedValid(c: Client)
    requires c.Valid()
    ensures c.(closed := true).Valid()
  {
    assert c.(closed := true).Stream() == c.Stream();
  }

  lemma ReadValid(c: Client)
    requires c.Valid()
    ensures c.Read().Valid()
  {
    ReadKeepsStream(c);
  }

  lemma StepKeepsFit<C>(h: HubState<C>, a: HubAction<C>, ch: C)
    requires ch in h.channels && Fits(h, ch)
    ensures ch in HubStep(h, a).channels && Fits(HubStep(h, a), ch)
  {
    var c := h.channels[ch];
    ClosedValid(c);
    ReadValid(c);
    if a.Broadcasts? && a.payload.Envelope? {
      TakeKeepsValid(c, Sent(a.payload.message, a.payload.sourceId));
    }
  }

  lemma StepKeepsSound<C>(h: HubState<C>, a: HubAction<C>)
    requires Sound(h)
    ensures Sound(HubStep(h, a))
  {
    var t := HubStep(h, a);
    forall ch | ch in t.channels
      ensures Fits(t, ch)
    {
      if ch in h.channels {
        StepKeepsFit(h, a, ch);
      } else {
        ConnectedValid(a.filter);
      }
    }
  }

  ghost function HubRun<C>(actions: seq<HubAction<C>>): HubState<C> {
    if actions == [] then HubState(map[], map[]) else HubStep(HubRun(Front(actions)), Last(actions))
  }

  /** What one action of the hub is to the channel ch. */
  ghost function HappeningOf<C>(h: HubState<C>, a: HubAction<C>, ch: C): seq<Happening> {
    if a.Broadcasts? && a.payload.Envelope? && ch in h.clients then
      [Broadcasted(Sent(a.payload.message, a.payload.sourceId))]
    else if a == Receives(ch) && ch in h.channels then [Reads]
    else []
  }

  /** The broadcasts while ch was registered, and its reads. */
  ghost function Happenings<C>(actions: seq<HubAction<C>>, ch: C): seq<Happening> {
    if actions == [] then []
    else Happenings(Front(actions), ch) + HappeningOf(HubRun(Front(actions)), Last(actions), ch)
  }

  /** The channel went through these happenings since it was registered, and is open while it is. */
  ghost predicate Follower<C>(h: HubState<C>, ch: C, run: seq<Happening>) {
    && (ch !in h.channels ==> run == [] && ch !in h.clients)
    && (ch in h.channels ==>
          && h.channels[ch].(closed := false) == Run(h.channels[ch].filter, run)
          && (h.channels[ch].closed <==> ch !in h.clients)
          && (ch in h.clients ==> h.clients[ch] == h.channels[ch].filter))
  }

  lemma RunSnoc(filter: string, run: seq<Happening>, x: Happening)
    ensures Run(filter, run + [x]) ==
            match x { case Broadcasted(s) => Run(filter, run).Take(s) case Reads => Run(filter, run).Read() }
  {
    assert Front(run + [x]) == run;
  }

  /** A step that is nothing to the channel leaves its stream alone. */
  lemma StepElsewhere<C>(h: HubState<C>, a: HubAction<C>, ch: C, run: seq<Happening>)
    requires Follower(h, ch, run) && HappeningOf(h, a, ch) == []
    ensures Follower(HubStep(h, a), ch, run)
  {
  }

  lemma StepTakes<C>(h: HubState<C>, payload: Envelope, ch: C, run: seq<Happening>)
    requires Follower(h, ch, run) && payload.Envelope? && ch in h.clients
    ensures Follower(HubStep(h, Broadcasts(payload)), ch,
                     run + [Broadcasted(Sent(payload.message, payload.sourceId))])
  {
    var s, c := Sent(payload.message, payload.sourceId), h.channels[ch];
    RunSnoc(c.filter, run, Broadcasted(s));
    assert c.(closed := false).Take(s) == c.Take(s).(closed := false);
  }

  lemma StepReads<C>(h: HubState<C>, ch: C, run: seq<Happening>)
    requires Follower(h, ch, run) && ch in h.channels
    ensures Follower(HubStep(h, Receives(ch)), ch, run + [Reads])
  {
    var c := h.channels[ch];
    RunSnoc(c.filter, run, Reads);
    assert c.(closed := false).Read() == c.Read().(closed := false);
  }

  lemma StepFollows<C>(h: HubState<C>, a: HubAction<C>, ch: C, run: seq<Happening>)
    requires Follower(h, ch, run)
    ensures Follower(HubStep(h, a), ch, run + HappeningOf(h, a, ch))
  {
    if HappeningOf(h, a, ch) == [] {
      StepElsewhere(h, a, ch, run);
      assert run + [] == run;
    } else if a.Broadcasts? {
      StepTakes(h, a.payload, ch, run);
    } else {
      StepReads(h, ch, run);
    }
  }

  lemma {:induction false} RunFollows<C>(actions: seq<HubAction<C>>, ch: C)
    ensures Follower(HubRun(actions), ch, Happenings(actions, ch))
  {
    if actions != [] {
      RunFollows(Front(actions), ch);
      StepFollows(HubRun(Front(actions)), Last(actions), ch, Happenings(Front(actions), ch));
    }
  }

  /**
   In every run of the hub, for every channel there ever was: it is open exactly while registered, and
   what its reader took followed by its buffer, of at most 64, is an in-order selection from the
   admitted ones of the broadcasts since it registered, and all of them exactly if none of those found
   its buffer full.
   */
  lemma HubStreams<C>(actions: seq<HubAction<C>>, ch: C)
    requires ch in HubRun(actions).channels
    ensures var h, run := HubRun(actions), Happenings(actions, ch);
            var c := h.channels[ch];
            && (c.closed <==> ch !in h.clients)
            && c.seen == Run(c.filter, run).seen && |c.buffer| <= BUFFER_SIZE
            && Subsequence(c.consumed + c.buffer, Admitted(c.filter, c.seen))
            && (c.consumed + c.buffer == Admitted(c.filter, c.seen) <==> !exists n :: DropsAt(c.filter, run, n))
  {
    RunFollows(actions, ch);
    var c := HubRun(actions).channels[ch];
    assert c.(closed := false).buffer == c.buffer && c.(closed := false).consumed == c.consumed;
    StreamCompleteIff(c.filter, Happenings(actions, ch));
  }

  // ---------- Filtering, said without the filter function ----------

  lemma {:induction false} AdmittedFrom(filter: string, log: seq<Sent>, i: nat) returns (n: nat)
    requires i < |Admitted(filter, log)|
    ensures n < |log| && log[n].message == Admitted(filter, log)[i]
    ensures filter == "" || log[n].sourceId == "" || log[n].sourceId == filter
  {
    if i < |Admitted(filter, Front(log))| {
      n := AdmittedFrom(filter, Front(log), i);
    } else {
      n := |log| - 1;
    }
  }

  /** Some broadcast of the run sent this message, with a source the filter is for. */
  ghost predicate SentFor<C>(actions: seq<HubAction<C>>, n: int, filter: string, message: Message) {
    && 0 <= n < |actions| && actions[n].Broadcasts? && actions[n].payload.Envelope?
    && actions[n].payload.message == message
    && (filter == "" || actions[n].payload.sourceId == "" || actions[n].payload.sourceId == filter)
  }

  ghost predicate LogsBroadcasts<C>(actions: seq<HubAction<C>>, log: seq<Sent>) {
    forall i :: 0 <= i < |log| ==> SomeBroadcast(actions, log[i])
  }

  ghost predicate SomeBroadcast<C>(actions: seq<HubAction<C>>, s: Sent) {
    exists n :: 0 <= n < |actions| && actions[n] == Broadcasts(Envelope(s.message, s.sourceId))
  }

  lemma BroadcastStays<C>(actions: seq<HubAction<C>>, s: Sent)
    requires actions != [] && SomeBroadcast(Front(actions), s)
    ensures SomeBroadcast(actions, s)
  {
    var n :| 0 <= n < |Front(actions)| && Front(actions)[n] == Broadcasts(Envelope(s.message, s.sourceId));
    assert actions[n] == Front(actions)[n];
  }

  /** A channel only ever sees broadcasts of the run. */
  lemma {:induction false} SeenBroadcasts<C>(actions: seq<HubAction<C>>, ch: C)
    requires ch in HubRun(actions).channels
    ensures LogsBroadcasts(actions, HubRun(actions).channels[ch].seen)
  {
    if actions != [] {
      var h, a := HubRun(Front(actions)), Last(actions);
      assert a == actions[|actions| - 1];
      if ch in h.channels {
        SeenBroadcasts(Front(actions), ch);
        forall i | 0 <= i < |h.channels[ch].seen|
          ensures SomeBroadcast(actions, h.channels[ch].seen[i])
        {
          BroadcastStays(actions, h.channels[ch].seen[i]);
        }
        SeenGrows(h, a, ch);
      }
    }
  }

  lemma SeenGrows<C>(h: HubState<C>, a: HubAction<C>, ch: C)
    requires ch in h.channels
    ensures ch in HubStep(h, a).channels
    ensures var before, after := h.channels[ch].seen, HubStep(h, a).channels[ch].seen;
            || after == before
            || (&& a.Broadcasts? && a.payload.Envelope?
                && after == before + [Sent(a.payload.message, a.payload.sourceId)])
  {
  }

  /**
   In every run, each message of a channel's stream was sent by a broadcast whose source is the
   channel's filter, unless the filter or the source is empty.
   */
  lemma OnlyForFilter<C>(actions: seq<HubAction<C>>, ch: C, i: nat) returns (n: int)
    requires ch in HubRun(actions).channels
    requires var c := HubRun(actions).channels[ch]; i < |c.consumed + c.buffer|
    ensures var c := HubRun(actions).channels[ch]; SentFor(actions, n, c.filter, (c.consumed + c.buffer)[i])
  {
    var c := HubRun(actions).channels[ch];
    HubStreams(actions, ch);
    var at: seq<int> :| Picks(c.consumed + c.buffer, Admitted(c.filter, c.seen), at);
    var p: nat := at[i];
    var k := AdmittedFrom(c.filter, c.seen, p);
    SeenBroadcasts(actions, ch);
    assert SomeBroadcast(actions, c.seen[k]);
    n :| 0 <= n < |actions| && actions[n] == Broadcasts(Envelope(c.seen[k].message, c.seen[k].sourceId));
  }

  /**
   In every run, a broadcast is buffered for a registered channel if and only if its filter is empty,
   the source is empty or the two are equal, and fewer than 64 messages are buffered; nothing else of
   what the reader sees changes, and nothing for channels that are not registered.
   */
  lemma BroadcastReaches<C>(actions: seq<HubAction<C>>, ch: C, message: Message, sourceId: string)
    requires ch in HubRun(actions).channels
    ensures var h, t := HubRun(actions), HubRun(actions + [Broadcasts(Envelope(message, sourceId))]);
            && ch in t.channels
            && var before, after := h.channels[ch], t.channels[ch];
               && after.consumed == before.consumed && after.closed == before.closed
               && (ch !in h.clients ==> after == before)
               && (ch in h.clients ==>
                     var filter := h.clients[ch];
                     && after.filter == before.filter == filter
                     && after.buffer ==
                        (if (filter == "" || sourceId == "" || sourceId == filter) && |before.buffer| < 64
                         then before.buffer + [message] else before.buffer))
  {
    var all := actions + [Broadcasts(Envelope(message, sourceId))];
    assert Front(all) == actions;
    RunFollows(actions, ch);
  }

  // ---------- The code ----------

  class Channel {
    const filter: string
    var buffer: seq<Message>
    var closed: bool
    ghost var seen: seq<Sent>
    ghost var consumed: seq<Message>
    ghost var overflowed: bool

    constructor (filter: string)
      ensures this.filter == filter && Now() == Connected(filter)
    {
      this.filter := filter;
      buffer, consumed, seen, closed, overflowed := [], [], [], false, false;
    }

    ghost function Now(): Client
      reads this
    {
      Client(filter, buffer, closed, seen, consumed, overflowed)
    }

    /** A non-blocking send; on a closed channel it would panic. */
    method TrySend(message: Message)
      requires !closed
      modifies this`buffer, this`overflowed
      ensures |old(buffer)| < BUFFER_SIZE ==> buffer == old(buffer) + [message] && overflowed == old(overflowed)
      ensures |old(buffer)| >= BUFFER_SIZE ==> buffer == old(buffer) && overflowed
    {
      if |buffer| < BUFFER_SIZE {
        buffer := buffer + [message];
      } else {
        overflowed := true;
      }
    }

    /** The body of Broadcast's loop for one client: filter, then send without blocking. */
    method Offer(s: Sent)
      requires !closed
      modifies this
      ensures Now() == old(Now()).Take(s)
      ensures buffer == if (filter == "" || s.sourceId == "" || s.sourceId == filter) && |old(buffer)| < 64
                        then old(buffer) + [s.message] else old(buffer)
    {
      seen := seen + [s];
      if filter != "" && s.sourceId != "" && filter != s.sourceId {
        return;
      }
      TrySend(s.message);
    }

    /** Returns whether closing panics, as closing a second time does. */
    method Close() returns (panics: bool)
      modifies this`closed
      ensures Now() == old(Now()).(closed := true)
      ensures panics == old(closed)
    {
      panics := closed;
      closed := true;
    }

    /** The reader takes the oldest buffered message; the stream as a whole stays. */
    method Receive() returns (m: Option<Message>)
      modifies this`buffer, this`consumed
      ensures Now() == old(Now()).Read()
      ensures old(buffer) != [] ==> buffer == old(buffer)[1..] && consumed == old(consumed) + [old(buffer)[0]]
      ensures m == if old(buffer) == [] then None else Some(old(buffer)[0])
    {
      if buffer == [] {
        return None;
      }
      m := Some(buffer[0]);
      consumed := consumed + [buffer[0]];
      buffer := buffer[1..];
    }
  }

  class Hub {
    var clients: map<Channel, string>
    ghost var state: HubState<Channel>  // every channel there ever was, as a value

    /** The state is what the fields of the hub and of all channels say. */
    ghost predicate Current()
      reads this, state.channels.Keys
    {
      && state.clients == clients && clients.Keys <= state.channels.Keys
      && forall ch :: ch in state.channels ==> ch.Now() == state.channels[ch]
    }

    ghost predicate Valid()
      reads this, state.channels.Keys
    {
      Current() && Sound(state)
    }

    constructor ()
      ensures Valid() && state == HubState(map[], map[])
    {
      clients := map[];
      state := HubState(map[], map[]);
    }

    method Register(sourceFilter: string) returns (ch: Channel)
      requires Valid()
      modifies this
      ensures Valid() && fresh(ch)
      ensures state == HubStep(old(state), Registers(ch, sourceFilter)) && ch in state.channels
      ensures clients == old(clients)[ch := sourceFilter]
      ensures ch.filter == sourceFilter && ch.buffer == [] && !ch.closed
    {
      ch := new Channel(sourceFilter);
      clients := clients[ch := sourceFilter];
      StepKeepsSound(state, Registers(ch, sourceFilter));
      state := HubStep(state, Registers(ch, sourceFilter));
    }

    /** Closing a channel twice panics; a registered one is always closed cleanly. */
    method Unregister(ch: Channel) returns (panics: bool)
      requires Valid()
      modifies this, ch`closed
      ensures Valid()
      ensures state == HubStep(old(state), Unregisters(ch))
      ensures clients == old(clients) - {ch} && ch.closed
      ensures panics == old(ch.closed)
      ensures ch in old(clients) ==> !panics
    {
      StepKeepsSound(state, Unregisters(ch));
      assert ch in clients ==> Fits(state, ch) && ch.closed == ch.Now().closed;
      panics := RemoveAndClose(ch);
    }

    /** The body of Unregister, whatever the state of the channel. */
    method RemoveAndClose(ch: Channel) returns (panics: bool)
      requires Current()
      modifies this, ch`closed
      ensures Current()
      ensures state == HubStep(old(state), Unregisters(ch))
      ensures clients == old(clients) - {ch} && ch.closed && panics == old(ch.closed)
    {
      clients := clients - {ch};
      panics := ch.Close();
      assert ch.Now().closed == ch.closed;
      state := HubStep(state, Unregisters(ch));
    }

    /** Every client sees the broadcast; nothing is ever sent to a closed channel. */
    method Broadcast(payload: Envelope)
      requires Valid()
      modifies this`state, clients.Keys
      ensures Valid() && clients == old(clients)
      ensures state == HubStep(old(state), Broadcasts(payload))
      ensures payload.Malformed? ==> state == old(state)
      ensures payload.Envelope? ==>
                forall ch :: ch in clients ==>
                  ch.buffer == if && |old(ch.buffer)| < 64
                                  && (clients[ch] == "" || payload.sourceId == "" || payload.sourceId == clients[ch])
                               then old(ch.buffer) + [payload.message] else old(ch.buffer)
    {
      StepKeepsSound(state, Broadcasts(payload));
      if payload.Malformed? {
        return;
      }
      forall ch | ch in clients
        ensures !ch.closed
      {
        assert Fits(state, ch) && ch.Now().closed == ch.closed;
      }
      Deliver(Sent(payload.message, payload.sourceId));
    }

    /** What Broadcast does once the payload is read. */
    method Deliver(s: Sent)
      requires Current() && forall ch :: ch in clients ==> !ch.closed
      modifies this`state, clients.Keys
      ensures Current() && clients == old(clients)
      ensures state == HubStep(old(state), Broadcasts(Envelope(s.message, s.sourceId)))
    {
      OfferAll(s);
      state := HubStep(state, Broadcasts(Envelope(s.message, s.sourceId)));
    }

    /** Broadcast's loop over the clients, in any order. */
    method OfferAll(s: Sent)
      requires forall ch :: ch in clients ==> !ch.closed
      modifies clients.Keys
      ensures forall ch :: ch in clients ==> ch.Now() == old(ch.Now()).Take(s)
    {
      var remaining := clients.Keys;
      while remaining != {}
        invariant remaining <= clients.Keys
        invariant forall ch :: ch in remaining ==> !ch.closed && ch.Now() == old(ch.Now())
        invariant forall ch :: ch in clients && ch !in remaining ==> ch.Now() == old(ch.Now()).Take(s)
        decreases remaining
      {
        var ch :| ch in remaining;
        ch.Offer(s);
        remaining := remaining - {ch};
      }
    }

    /** One receive of the handler that serves ch; it ends once the channel is closed and drained. */
    method ReadNext(ch: Channel) returns (m: Option<Message>, ends: bool)
      requires Valid() && ch in state.channels
      modifies this`state, ch`buffer, ch`consumed
      ensures Valid()
      ensures state == HubStep(old(state), Receives(ch))
      ensures m == if old(ch.buffer) == [] then None else Some(old(ch.buffer)[0])
      ensures ends <==> m == None && ch !in clients
    {
      StepKeepsSound(state, Receives(ch));
      assert Fits(state, ch) && state.channels[ch].closed == ch.Now().closed == ch.closed;
      m := Take(ch);
      ends := m == None && ch.closed;
    }

    /** The receive itself. */
    method Take(ch: Channel) returns (m: Option<Message>)
      requires Current() && ch in state.channels
      modifies this`state, ch`buffer, ch`consumed
      ensures Current()
      ensures state == HubStep(old(state), Receives(ch))
      ensures m == if old(ch.buffer) == [] then None else Some(old(ch.buffer)[0])
    {
      m := ch.Receive();
      state := HubStep(state, Receives(ch));
    }
  }
}
