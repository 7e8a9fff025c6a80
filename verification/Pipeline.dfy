/**
 From acceptance to the delivery queue: the orchestrator's routing step and the extraction worker
 (cmd/orchestrator/main.go, cmd/extractor-bridge/main.go).
 */
module Pipeline {
  import opened Common
  import opened JsonValues
  import opened Queues

  /** json.Unmarshal of a body into a map: the document `null` succeeds and leaves the map nil. */
  datatype Unmarshalled = Fails | NilMap | Object(fields: map<string, Json>)

  function Unmarshal(b: Body): Unmarshalled {
    match b
    case Document(Obj(f)) => Object(f)
    case Document(Null) => NilMap
    case _ => Fails
  }

  /** A non-empty string under "file_url" of an object body. */
  function FileUrlOf(b: Body): Option<string> {
    match Unmarshal(b)
    case Object(f) =>
      if "file_url" in f && f["file_url"].Str? && f["file_url"].s != "" then Some(f["file_url"].s) else None
    case _ => None
  }

  /** The body is an object with the non-empty string url under "file_url". */
  predicate NamesFile(b: Body, url: string) {
    && b.Document? && b.value.Obj? && "file_url" in b.value.fields
    && b.value.fields["file_url"] == Str(url) && url != ""
  }

  ghost predicate NamesSomeFile(b: Body) {
    exists url :: NamesFile(b, url)
  }

  lemma FileUrlIff(b: Body)
    ensures forall url :: FileUrlOf(b) == Some(url) <==> NamesFile(b, url)
    ensures FileUrlOf(b).Some? <==> NamesSomeFile(b)
  {
    if FileUrlOf(b).Some? {
      assert NamesFile(b, FileUrlOf(b).value);
    }
  }

  // ---------- Orchestrator ----------

  function Routed(e: Event): (QueueName, Event) {
    match FileUrlOf(e.body)
    case Some(url) => (Extraction, e.(fileUrl := url))
    case None => (Delivery, e)
  }

  datatype Turn = Idle | LostUnreadable | Forwarded(event: Event) | Dropped(event: Event)

  /** One turn of the orchestrator's loop. */
  method RouteNext(queue: RedisQueue, takeFails: bool, fails: bool) returns (turn: Turn)
    requires queue.Valid()
    modifies queue
    ensures queue.Valid()
    ensures takeFails || old(queue.lists[Incoming]) == [] ==> turn == Idle && queue.lists == old(queue.lists)
    ensures !takeFails && old(queue.lists[Incoming]) != [] ==>
              var popped := old(queue.lists)[Incoming := old(queue.lists[Incoming])[1..]];
              match queue.decode(old(queue.lists[Incoming])[0])
              case None => turn == LostUnreadable && queue.lists == popped
              case Some(e) =>
                var (target, e') := Routed(e);
                if fails then turn == Dropped(e') && queue.lists == popped
                else turn == Forwarded(e') && queue.lists == popped[target := popped[target] + [queue.encode(e')]]
    ensures !takeFails && !fails && old(queue.lists[Incoming]) != [] ==>
              match queue.decode(old(queue.lists[Incoming])[0])
              case None => true
              case Some(e) =>
                && (forall url :: NamesFile(e.body, url) ==>
                      && queue.lists[Extraction] == old(queue.lists[Extraction]) + [queue.encode(e.(fileUrl := url))]
                      && queue.lists[Delivery] == old(queue.lists[Delivery]))
                && (!NamesSomeFile(e.body) ==>
                      && queue.lists[Delivery] == old(queue.lists[Delivery]) + [queue.encode(e)]
                      && queue.lists[Extraction] == old(queue.lists[Extraction]))
  {
    var got := queue.Dequeue(Incoming, takeFails);
    if got == Nothing || got == Failed {
      return Idle;
    }
    if got == Unreadable {
      return LostUnreadable;
    }
    var event := got.event;
    FileUrlIff(event.body);
    var target := Delivery;
    var payload := Unmarshal(event.body);
    if payload.Object? && "file_url" in payload.fields {
      var fileUrl := payload.fields["file_url"];
      if fileUrl.Str? && fileUrl.s != "" {
        event := event.(fileUrl := fileUrl.s);
        target := Extraction;
      }
    }
    var ok := queue.Enqueue(target, event, fails);
    turn := if ok then Forwarded(event) else Dropped(event);
  }

  // ---------- Extraction worker ----------

  /** What the backend answers; parsed is the cleaned text unmarshalled into a map. */
  datatype Reply = BackendError | Refused | Replied(text: string, parsed: Unmarshalled)

  /** Everything the worker learns from outside. */
  datatype World = World(downloads: bool, fileType: string, uploads: bool, objectPath: string, presigns: bool,
                         reply: Reply, enqueueFails: bool)

  datatype Record = Record(success: bool, error: string)

  function ExtractedData(reply: Reply): Json
    requires reply.Replied?
  {
    match reply.parsed
    case Object(f) => Obj(f)
    case NilMap => Null
    case Fails => Obj(map["raw" := Str(reply.text)])
  }

  predicate ReachesMerge(w: World) {
    w.downloads && w.fileType != "unknown" && w.uploads && w.presigns && w.reply.Replied?
  }

  /** The event that is handed on. */
  function Enriched(e: Event, w: World): Event
    requires ReachesMerge(w) ==> Unmarshal(e.body) != NilMap
  {
    if !w.downloads || w.fileType == "unknown" || !w.uploads then e
    else if !ReachesMerge(w) then e.(fileStorePath := w.objectPath)
    else
      var data := ExtractedData(w.reply);
      Event(e.id, e.sourceId,
            match Unmarshal(e.body) case Object(f) => Document(Obj(f["extracted" := data])) case _ => e.body,
            e.fileUrl, w.objectPath, data)
  }

  /** The backend answered, and everything before went well. */
  predicate Answered(w: World) {
    w.downloads && w.fileType != "unknown" && w.uploads && w.presigns && w.reply.Replied?
  }

  /** What is extracted from an answer: the object it parses to, none for `null`, else its raw text. */
  predicate Extracts(reply: Reply, data: Json) {
    && reply.Replied?
    && (reply.parsed.Object? ==> data == Obj(reply.parsed.fields))
    && (reply.parsed == NilMap ==> data == Null)
    && (reply.parsed == Fails ==> data == Obj(map["raw" := Str(reply.text)]))
  }

  /** The event e that is handed on for the input, field by field. */
  ghost predicate HandedOn(input: Event, w: World, e: Event) {
    && e.id == input.id && e.sourceId == input.sourceId && e.fileUrl == input.fileUrl
    && e.fileStorePath ==
       (if w.downloads && w.fileType != "unknown" && w.uploads then w.objectPath else input.fileStorePath)
    && (!Answered(w) ==> e.extracted == input.extracted && e.body == input.body)
    && (Answered(w) ==>
          && Extracts(w.reply, e.extracted)
          && (if input.body.Document? && input.body.value.Obj?
              then e.body == Document(Obj(input.body.value.fields["extracted" := e.extracted]))
              else e.body == input.body))
  }

  lemma EnrichedIsHandedOn(input: Event, w: World)
    requires ReachesMerge(w) ==> Unmarshal(input.body) != NilMap
    ensures HandedOn(input, w, Enriched(input, w))
  {
  }

  /** Nothing else fits the description. */
  lemma HandedOnUnique(input: Event, w: World, e: Event, e': Event)
    requires HandedOn(input, w, e) && HandedOn(input, w, e')
    ensures e == e'
  {
  }

  method EnqueueForDelivery(queue: RedisQueue, event: Event, fails: bool, handOns: nat) returns (handOns': nat)
    requires queue.Valid()
    modifies queue
    ensures queue.Valid() && handOns' == handOns + 1
    ensures queue.lists == if fails then old(queue.lists)
                           else old(queue.lists)[Delivery := old(queue.lists[Delivery]) + [queue.encode(event)]]
  {
    var _ := queue.Enqueue(Delivery, event, fails);
    handOns' := handOns + 1;
  }

  /**
   Writing into the nil map of a `null` body would panic; on every other body each exit hands the
   event on exactly once.
   */
  method ProcessEvent(queue: RedisQueue, input: Event, w: World) returns (panics: bool, record: Record, handOns: nat)
    requires queue.Valid()
    modifies queue
    ensures queue.Valid()
    ensures panics <==> ReachesMerge(w) && Unmarshal(input.body) == NilMap
    ensures panics <==> Answered(w) && input.body == Document(Null)
    ensures panics ==> handOns == 0 && queue.lists == old(queue.lists)
    ensures !panics ==> handOns == 1
    ensures !panics ==>
              queue.lists == if w.enqueueFails then old(queue.lists)
                             else old(queue.lists)[Delivery := old(queue.lists[Delivery]) +
                                                               [queue.encode(Enriched(input, w))]]
    ensures record.success <==> !panics && ReachesMerge(w)
    ensures !panics && !w.enqueueFails ==>
              exists e ::
                HandedOn(input, w, e) && queue.lists[Delivery] == old(queue.lists[Delivery]) + [queue.encode(e)]
  {
    if !(ReachesMerge(w) && Unmarshal(input.body) == NilMap) {
      EnrichedIsHandedOn(input, w);
    }
    var event := input;
    panics, handOns := false, 0;
    if !w.downloads {
      record := Record(false, "download failed");
      handOns := EnqueueForDelivery(queue, event, w.enqueueFails, handOns);
      return;
    }
    if w.fileType == "unknown" {
      record := Record(false, "unknown file type");
      handOns := EnqueueForDelivery(queue, event, w.enqueueFails, handOns);
      return;
    }
    if !w.uploads {
      record := Record(false, "minio upload failed");
      handOns := EnqueueForDelivery(queue, event, w.enqueueFails, handOns);
      return;
    }
    event := event.(fileStorePath := w.objectPath);
    if !w.presigns {
      record := Record(false, "presign failed");
      handOns := EnqueueForDelivery(queue, event, w.enqueueFails, handOns);
      return;
    }
    if w.reply.BackendError? {
      record := Record(false, "grpc failed");
      handOns := EnqueueForDelivery(queue, event, w.enqueueFails, handOns);
      return;
    }
    if w.reply.Refused? {
      record := Record(false, "refused");
      handOns := EnqueueForDelivery(queue, event, w.enqueueFails, handOns);
      return;
    }
    var data := ExtractedData(w.reply);
    event := event.(extracted := data);
    var payload := Unmarshal(event.body);
    if payload == NilMap {
      return true, Record(false, "panic"), 0;
    }
    if payload.Object? {
      event := event.(body := Document(Obj(payload.fields["extracted" := data])));
    }
    record := Record(true, "");
    handOns := EnqueueForDelivery(queue, event, w.enqueueFails, handOns);
  }

  // ---------- The whole path, every interleaving ----------

  datatype State = State(
    incoming: seq<Event>,
    extraction: seq<Event>,
    delivery: seq<Event>,
    routing: seq<Event>,       // in the hands of orchestrator workers
    extracting: seq<Event>,    // in the hands of extraction workers
    handed: seq<Event>,        // taken by delivery workers
    dropped: seq<Event>,       // an enqueue failed and was only logged
    accepted: multiset<string>,
    reenqueued: multiset<string>,
    originals: map<string, Body>,  // history: the body each event id was accepted with
    toExtraction: set<string>,     // history: ids the orchestrator put into extraction
    toDelivery: set<string>,       // history: ids the orchestrator put into delivery
    unrouted: set<string>,         // history: ids the orchestrator dropped
    panicked: bool)

  datatype Action =
    | Accept(event: Event)
    | TakeIncoming
    | Route(index: nat, fails: bool)
    | TakeExtraction
    | Extract(index: nat, world: World)
    | TakeDelivery
    | Reenqueue(index: nat, fileUrl: string, fileStorePath: string, extracted: Json)

  function Init(): State {
    State([], [], [], [], [], [], [], multiset{}, multiset{}, map[], {}, {}, {}, false)
  }

  /** Event ids are fresh UUIDs. A re-enqueued copy (dead-letter retry, recovery) keeps id and body. */
  function Next(s: State, a: Action): State {
    match a
    case Accept(e) =>
      if e.id in s.originals then s
      else s.(incoming := s.incoming + [e], accepted := s.accepted + multiset{e.id},
              originals := s.originals[e.id := e.body])
    case TakeIncoming =>
      if s.incoming == [] then s else s.(incoming := s.incoming[1..], routing := s.routing + [s.incoming[0]])
    case Route(i, fails) =>
      if i >= |s.routing| then s
      else
        var (target, e) := Routed(s.routing[i]);
        var t := s.(routing := RemoveAt(s.routing, i));
        if fails then t.(dropped := s.dropped + [e], unrouted := s.unrouted + {e.id})
        else if target == Extraction then t.(extraction := s.extraction + [e], toExtraction := s.toExtraction + {e.id})
        else t.(delivery := s.delivery + [e], toDelivery := s.toDelivery + {e.id})
    case TakeExtraction =>
      if s.extraction == [] then s
      else s.(extraction := s.extraction[1..], extracting := s.extracting + [s.extraction[0]])
    case Extract(i, w) =>
      if i >= |s.extracting| then s
      else if ReachesMerge(w) && Unmarshal(s.extracting[i].body) == NilMap then s.(panicked := true)
      else
        var e := Enriched(s.extracting[i], w);
        var t := s.(extracting := RemoveAt(s.extracting, i));
        if w.enqueueFails then t.(dropped := s.dropped + [e]) else t.(delivery := s.delivery + [e])
    case TakeDelivery =>
      if s.delivery == [] then s else s.(delivery := s.delivery[1..], handed := s.handed + [s.delivery[0]])
    case Reenqueue(i, url, path, extracted) =>
      if i >= |s.handed| then s
      else
        var e := Event(s.handed[i].id, s.handed[i].sourceId, s.handed[i].body, url, path, extracted);
        s.(delivery := s.delivery + [e], reenqueued := s.reenqueued + multiset{e.id})
  }

  function Run(actions: seq<Action>): State {
    if actions == [] then Init() else Next(Run(Front(actions)), Last(actions))
  }

  // ---------- Invariants ----------

  function Count(l: seq<Event>, id: string): nat {
    if l == [] then 0 else Count(Front(l), id) + if Last(l).id == id then 1 else 0
  }

  /** Copies of the event anywhere on the path. */
  function Present(s: State, id: string): nat {
    Count(s.incoming, id) + Count(s.extraction, id) + Count(s.delivery, id) +
    Count(s.routing, id) + Count(s.extracting, id) + Count(s.handed, id) + Count(s.dropped, id)
  }

  ghost predicate Conserved(s: State, id: string) {
    Present(s, id) == s.accepted[id] + s.reenqueued[id]
  }

  /** An event waiting for extraction: an object body whose file_url is the event's. */
  predicate Extractable(e: Event) {
    e.fileUrl != "" && FileUrlOf(e.body) == Some(e.fileUrl)
  }

  /** The bodies agree on every key except "extracted", and only objects are ever changed. */
  ghost predicate AgreesExceptExtracted(original: Body, body: Body) {
    || body == original
    || (&& Unmarshal(original).Object? && Unmarshal(body).Object?
        && Unmarshal(body).fields - {"extracted"} == Unmarshal(original).fields - {"extracted"}
        && "extracted" in Unmarshal(body).fields)
  }

  ghost predicate Untouched(s: State, e: Event) {
    e.id in s.originals && s.originals[e.id] == e.body
  }

  ghost predicate Traceable(s: State, e: Event) {
    e.id in s.originals && AgreesExceptExtracted(s.originals[e.id], e.body)
  }

  ghost predicate BodiesInv(s: State) {
    && (forall i :: 0 <= i < |s.incoming| ==> Untouched(s, s.incoming[i]))
    && (forall i :: 0 <= i < |s.routing| ==> Untouched(s, s.routing[i]))
    && (forall i :: 0 <= i < |s.extraction| ==> Untouched(s, s.extraction[i]) && Extractable(s.extraction[i]))
    && (forall i :: 0 <= i < |s.extracting| ==> Untouched(s, s.extracting[i]) && Extractable(s.extracting[i]))
    && (forall i :: 0 <= i < |s.delivery| ==> Traceable(s, s.delivery[i]))
    && (forall i :: 0 <= i < |s.handed| ==> Traceable(s, s.handed[i]))
    && !s.panicked
  }

  lemma {:induction false} CountAppend(l: seq<Event>, m: seq<Event>, id: string)
    ensures Count(l + m, id) == Count(l, id) + Count(m, id)
    decreases |m|
  {
    if m == [] {
      assert l + m == l;
    } else {
      assert Front(l + m) == l + Front(m);
      CountAppend(l, Front(m), id);
    }
  }

  lemma CountSnoc(l: seq<Event>, e: Event, id: string)
    ensures Count(l + [e], id) == Count(l, id) + if e.id == id then 1 else 0
  {
    assert Front(l + [e]) == l;
  }

  lemma CountRemoved(l: seq<Event>, i: nat, id: string)
    requires i < |l|
    ensures Count(l, id) == Count(RemoveAt(l, i), id) + if l[i].id == id then 1 else 0
  {
    var before, after := l[..i], l[i + 1..];
    assert l == (before + [l[i]]) + after;
    CountAppend(before + [l[i]], after, id);
    CountSnoc(before, l[i], id);
    CountAppend(before, after, id);
  }

  lemma CountPopped(l: seq<Event>, id: string)
    requires l != []
    ensures Count(l, id) == Count(l[1..], id) + if l[0].id == id then 1 else 0
  {
    assert RemoveAt(l, 0) == l[1..];
    CountRemoved(l, 0, id);
  }

  lemma TakeConserves(s: State, a: Action, id: string)
    requires Conserved(s, id) && (a.TakeIncoming? || a.TakeExtraction? || a.TakeDelivery?)
    ensures Conserved(Next(s, a), id)
  {
    match a {
      case TakeIncoming =>
        if s.incoming != [] {
          CountPopped(s.incoming, id);
          CountSnoc(s.routing, s.incoming[0], id);
        }
      case TakeExtraction =>
        if s.extraction != [] {
          CountPopped(s.extraction, id);
          CountSnoc(s.extracting, s.extraction[0], id);
        }
      case TakeDelivery =>
        if s.delivery != [] {
          CountPopped(s.delivery, id);
          CountSnoc(s.handed, s.delivery[0], id);
        }
    }
  }

  lemma EnrichedKeepsId(e: Event, w: World)
    requires ReachesMerge(w) ==> Unmarshal(e.body) != NilMap
    ensures Enriched(e, w).id == e.id
  {
  }

  lemma RoutedKeepsId(e: Event)
    ensures Routed(e).1.id == e.id
    ensures Routed(e).0 == Extraction || Routed(e).0 == Delivery
  {
  }

  /** From a worker's hands to the end of one of the lists. */
  lemma HandOnConserves(before: seq<Event>, i: nat, l: seq<Event>, e: Event, id: string)
    requires i < |before| && e.id == before[i].id
    ensures Count(RemoveAt(before, i), id) + Count(l + [e], id) == Count(before, id) + Count(l, id)
  {
    CountRemoved(before, i, id);
    CountSnoc(l, e, id);
  }

  lemma RouteConserves(s: State, a: Action, id: string)
    requires Conserved(s, id) && a.Route?
    ensures Conserved(Next(s, a), id)
  {
    if a.index < |s.routing| {
      var (target, e) := Routed(s.routing[a.index]);
      RoutedKeepsId(s.routing[a.index]);
      if a.fails {
        HandOnConserves(s.routing, a.index, s.dropped, e, id);
      } else if target == Extraction {
        HandOnConserves(s.routing, a.index, s.extraction, e, id);
      } else {
        HandOnConserves(s.routing, a.index, s.delivery, e, id);
      }
    }
  }

  lemma ExtractConserves(s: State, a: Action, id: string)
    requires Conserved(s, id) && a.Extract?
    ensures Conserved(Next(s, a), id)
  {
    if a.index < |s.extracting| && !(ReachesMerge(a.world) && Unmarshal(s.extracting[a.index].body) == NilMap) {
      var e := Enriched(s.extracting[a.index], a.world);
      EnrichedKeepsId(s.extracting[a.index], a.world);
      if a.world.enqueueFails {
        HandOnConserves(s.extracting, a.index, s.dropped, e, id);
      } else {
        HandOnConserves(s.extracting, a.index, s.delivery, e, id);
      }
    }
  }

  lemma AcceptConserves(s: State, e: Event, id: string)
    requires Conserved(s, id)
    ensures Conserved(Next(s, Accept(e)), id)
  {
    if e.id !in s.originals {
      var t := Next(s, Accept(e));
      assert t.incoming == s.incoming + [e];
      CountSnoc(s.incoming, e, id);
      assert t.accepted[id] == s.accepted[id] + if e.id == id then 1 else 0;
    }
  }

  lemma ReenqueueConserves(s: State, a: Action, id: string)
    requires Conserved(s, id) && a.Reenqueue?
    ensures Conserved(Next(s, a), id)
  {
    if a.index < |s.handed| {
      var t := Next(s, a);
      var e := Last(t.delivery);
      assert t.delivery == s.delivery + [e];
      CountSnoc(s.delivery, e, id);
      assert t.reenqueued[id] == s.reenqueued[id] + if e.id == id then 1 else 0;
    }
  }

  /**
   For every event id the copies queued, in a worker's hands, handed to delivery or dropped in a log
   line are exactly those accepted plus those put back by dead-letter retry and recovery.
   */
  lemma {:induction false} Conservation(actions: seq<Action>, id: string)
    ensures Conserved(Run(actions), id)
  {
    if actions != [] {
      Conservation(Front(actions), id);
      var s, a := Run(Front(actions)), Last(actions);
      if a.TakeIncoming? || a.TakeExtraction? || a.TakeDelivery? {
        TakeConserves(s, a, id);
      } else if a.Route? {
        RouteConserves(s, a, id);
      } else if a.Extract? {
        ExtractConserves(s, a, id);
      } else if a.Accept? {
        AcceptConserves(s, a.event, id);
      } else {
        ReenqueueConserves(s, a, id);
      }
    }
  }

  lemma EnrichedTraceable(s: State, e: Event, w: World)
    requires Untouched(s, e) && Extractable(e)
    ensures Unmarshal(e.body).Object?
    ensures Traceable(s, Enriched(e, w))
  {
  }

  lemma ExtractKeepsBodies(s: State, a: Action)
    requires BodiesInv(s) && a.Extract?
    ensures BodiesInv(Next(s, a))
  {
    if a.index < |s.extracting| {
      EnrichedTraceable(s, s.extracting[a.index], a.world);
    }
  }

  lemma AcceptKeepsBodies(s: State, a: Action)
    requires BodiesInv(s) && a.Accept?
    ensures BodiesInv(Next(s, a))
  {
  }

  lemma RouteKeepsBodies(s: State, a: Action)
    requires BodiesInv(s) && a.Route?
    ensures BodiesInv(Next(s, a))
  {
    if a.index < |s.routing| {
      assert Untouched(s, s.routing[a.index]);
    }
  }

  lemma TakeKeepsBodies(s: State, a: Action)
    requires BodiesInv(s) && (a.TakeIncoming? || a.TakeExtraction? || a.TakeDelivery? || a.Reenqueue?)
    ensures BodiesInv(Next(s, a))
  {
  }

  lemma {:induction false} BodiesKept(actions: seq<Action>)
    ensures BodiesInv(Run(actions))
  {
    if actions != [] {
      BodiesKept(Front(actions));
      var s, a := Run(Front(actions)), Last(actions);
      if a.Extract? {
        ExtractKeepsBodies(s, a);
      } else if a.Accept? {
        AcceptKeepsBodies(s, a);
      } else if a.Route? {
        RouteKeepsBodies(s, a);
      } else {
        TakeKeepsBodies(s, a);
      }
    }
  }

  /**
   In every run: the merge never meets a nil map, events in extraction carry the file_url of their
   own body, and whatever reaches delivery agrees with the accepted body except on "extracted".
   */
  lemma DeliveredBodiesAgree(actions: seq<Action>)
    ensures var s := Run(actions);
            && !s.panicked
            && (forall i :: 0 <= i < |s.extraction| ==> Extractable(s.extraction[i]))
            && (forall i :: 0 <= i < |s.extracting| ==> Unmarshal(s.extracting[i].body).Object?)
            && (forall i :: 0 <= i < |s.handed| ==>
                  && s.handed[i].id in s.originals
                  && AgreesExceptExtracted(s.originals[s.handed[i].id], s.handed[i].body))
  {
    BodiesKept(actions);
    var s := Run(actions);
    forall i | 0 <= i < |s.extracting|
      ensures Unmarshal(s.extracting[i].body).Object?
    {
      assert Extractable(s.extracting[i]);
    }
  }

  // ---------- Who goes through extraction ----------

  ghost predicate Holds(l: seq<Event>, id: string) {
    exists i :: 0 <= i < |l| && l[i].id == id
  }

  lemma HoldsSnoc(l: seq<Event>, e: Event, id: string)
    ensures Holds(l + [e], id) <==> Holds(l, id) || e.id == id
  {
    var more := l + [e];
    assert more[|l|] == e;
    if Holds(l, id) {
      var i :| 0 <= i < |l| && l[i].id == id;
      assert more[i].id == id;
    }
  }

  lemma HoldsWithout(l: seq<Event>, i: nat, id: string)
    requires i < |l|
    ensures Holds(l, id) <==> Holds(RemoveAt(l, i), id) || l[i].id == id
  {
    var rest := RemoveAt(l, i);
    if Holds(l, id) && l[i].id != id {
      var k :| 0 <= k < |l| && l[k].id == id;
      assert k < i ==> rest[k] == l[k];
      assert k > i ==> rest[k - 1] == l[k];
    }
    if Holds(rest, id) {
      var k :| 0 <= k < |rest| && rest[k].id == id;
      assert rest[k] == if k < i then l[k] else l[k + 1];
    }
  }

  lemma HoldsPopped(l: seq<Event>, id: string)
    requires l != []
    ensures Holds(l, id) <==> Holds(l[1..], id) || l[0].id == id
  {
    assert RemoveAt(l, 0) == l[1..];
    HoldsWithout(l, 0, id);
  }

  /**
   An accepted event is still with the orchestrator, or dropped by it, or has gone to extraction or
   straight to delivery, the one only if its accepted body names a file, the other only if not.
   */
  ghost predicate Sorted(s: State, id: string) {
    && (id in s.originals ==>
          || Holds(s.incoming, id) || Holds(s.routing, id)
          || id in s.toExtraction || id in s.toDelivery || id in s.unrouted)
    && (id in s.toExtraction ==> id in s.originals && NamesSomeFile(s.originals[id]))
    && (id in s.toDelivery ==> id in s.originals && !NamesSomeFile(s.originals[id]))
    && (Holds(s.extraction, id) || Holds(s.extracting, id) ==> id in s.toExtraction)
  }

  lemma AcceptSorts(s: State, e: Event, id: string)
    requires Sorted(s, id)
    ensures Sorted(Next(s, Accept(e)), id)
  {
    HoldsSnoc(s.incoming, e, id);
  }

  lemma TakeSorts(s: State, a: Action, id: string)
    requires Sorted(s, id) && (a.TakeIncoming? || a.TakeExtraction? || a.TakeDelivery? || a.Reenqueue?)
    ensures Sorted(Next(s, a), id)
  {
    if a.TakeIncoming? && s.incoming != [] {
      HoldsPopped(s.incoming, id);
      HoldsSnoc(s.routing, s.incoming[0], id);
    } else if a.TakeExtraction? && s.extraction != [] {
      HoldsPopped(s.extraction, id);
      HoldsSnoc(s.extracting, s.extraction[0], id);
    }
  }

  lemma RouteSorts(s: State, a: Action, id: string)
    requires Sorted(s, id) && BodiesInv(s) && a.Route?
    ensures Sorted(Next(s, a), id)
  {
    if a.index < |s.routing| {
      var e := s.routing[a.index];
      assert Untouched(s, e);
      FileUrlIff(e.body);
      RoutedKeepsId(e);
      HoldsWithout(s.routing, a.index, id);
      HoldsSnoc(s.extraction, Routed(e).1, id);
    }
  }

  lemma ExtractSorts(s: State, a: Action, id: string)
    requires Sorted(s, id) && a.Extract?
    ensures Sorted(Next(s, a), id)
  {
    if a.index < |s.extracting| {
      HoldsWithout(s.extracting, a.index, id);
    }
  }

  lemma {:induction false} AllSorted(actions: seq<Action>, id: string)
    ensures Sorted(Run(actions), id)
  {
    if actions != [] {
      AllSorted(Front(actions), id);
      BodiesKept(Front(actions));
      var s, a := Run(Front(actions)), Last(actions);
      if a.Accept? {
        AcceptSorts(s, a.event, id);
      } else if a.Route? {
        RouteSorts(s, a, id);
      } else if a.Extract? {
        ExtractSorts(s, a, id);
      } else {
        TakeSorts(s, a, id);
      }
    }
  }

  /**
   In every run, for every accepted event that the orchestrator has forwarded: it has been put into
   extraction exactly if its accepted body has a non-empty string file_url, and else into delivery.
   */
  lemma ExtractedIffFileNamed(actions: seq<Action>, id: string)
    requires var s := Run(actions);
             && id in s.originals && !Holds(s.incoming, id) && !Holds(s.routing, id) && id !in s.unrouted
    ensures var s := Run(actions);
            && (id in s.toExtraction <==> NamesSomeFile(s.originals[id]))
            && (id in s.toDelivery <==> !NamesSomeFile(s.originals[id]))
            && (Holds(s.extraction, id) || Holds(s.extracting, id) ==> NamesSomeFile(s.originals[id]))
  {
    AllSorted(actions, id);
  }

  // ---------- The two ways through ----------

  lemma RunStep(actions: seq<Action>, a: Action)
    ensures Run(actions + [a]) == Next(Run(actions), a)
  {
    assert Front(actions + [a]) == actions;
  }

  lemma IntoRouting(e: Event) returns (actions: seq<Action>)
    ensures Run(actions) == Init().(routing := [e], accepted := multiset{e.id}, originals := map[e.id := e.body])
  {
    var b1 := [] + [Accept(e)];
    actions := b1 + [TakeIncoming];
    RunStep([], Accept(e));
    RunStep(b1, TakeIncoming);
    assert Run(b1) == Init().(incoming := [e], accepted := multiset{e.id}, originals := map[e.id := e.body]);
  }

  lemma RoutesOut(s: State, e: Event)
    requires s.routing == [e] && s.delivery == [] && s.extraction == [] && s.toDelivery == {} && s.toExtraction == {}
    ensures var t := Next(s, Route(0, false));
            && t.originals == s.originals && t.handed == s.handed
            && (!NamesSomeFile(e.body) ==> t.delivery == [e] && t.toDelivery == {e.id})
            && forall url :: NamesFile(e.body, url) ==>
                 t.extraction == [e.(fileUrl := url)] && t.delivery == [] && t.toExtraction == {e.id}
  {
    FileUrlIff(e.body);
  }

  lemma IntoDelivery(e: Event) returns (actions: seq<Action>)
    requires !NamesSomeFile(e.body)
    ensures var s := Run(actions);
            s.delivery == [e] && s.handed == [] && s.originals == map[e.id := e.body] && s.toDelivery == {e.id}
  {
    var before := IntoRouting(e);
    actions := before + [Route(0, false)];
    RunStep(before, Route(0, false));
    RoutesOut(Run(before), e);
  }

  /** An event that names no file reaches delivery as it was accepted. */
  lemma StraightThrough(e: Event) returns (actions: seq<Action>)
    requires !NamesSomeFile(e.body)
    ensures var s := Run(actions); s.handed == [e] && s.originals == map[e.id := e.body] && s.toDelivery == {e.id}
  {
    var before := IntoDelivery(e);
    actions := before + [TakeDelivery];
    RunStep(before, TakeDelivery);
  }

  lemma IntoExtraction(e: Event, url: string) returns (actions: seq<Action>)
    requires NamesFile(e.body, url)
    ensures var s := Run(actions);
            && s.extracting == [e.(fileUrl := url)] && s.delivery == [] && s.handed == []
            && s.originals == map[e.id := e.body] && s.toExtraction == {e.id}
  {
    var before := IntoRouting(e);
    var routed := before + [Route(0, false)];
    actions := routed + [TakeExtraction];
    RunStep(before, Route(0, false));
    RoutesOut(Run(before), e);
    assert Run(before).extracting == [];
    RunStep(routed, TakeExtraction);
    assert Run(routed).extracting == [];
  }

  /** An event that names a file reaches delivery as the extraction worker hands it on. */
  lemma ThroughExtraction(e: Event, url: string, w: World) returns (actions: seq<Action>, out: Event)
    requires NamesFile(e.body, url) && !w.enqueueFails
    ensures HandedOn(e.(fileUrl := url), w, out)
    ensures var s := Run(actions); s.handed == [out] && s.originals == map[e.id := e.body] && s.toExtraction == {e.id}
  {
    var routed := e.(fileUrl := url);
    var before := IntoExtraction(e, url);
    var extracted := before + [Extract(0, w)];
    actions := extracted + [TakeDelivery];
    RunStep(before, Extract(0, w));
    RunStep(extracted, TakeDelivery);
    out := Enriched(routed, w);
    EnrichedIsHandedOn(routed, w);
    assert Run(extracted).delivery == [] + [out];
  }

  /** Workers take the oldest event of their queue. */
  lemma TakesOldest(s: State, e: Event, rest: seq<Event>)
    ensures s.incoming == [e] + rest ==> Next(s, TakeIncoming) == s.(incoming := rest, routing := s.routing + [e])
    ensures s.extraction == [e] + rest ==>
              Next(s, TakeExtraction) == s.(extraction := rest, extracting := s.extracting + [e])
    ensures s.delivery == [e] + rest ==> Next(s, TakeDelivery) == s.(delivery := rest, handed := s.handed + [e])
  {
  }
}
