/** Events, and the Redis lists that carry them (internal/queue/redis.go). */
module Queues {
  import opened Common
  import opened JsonValues

  /** A request body: bytes that are not JSON, or a JSON document. */
  datatype Body = Opaque(text: string) | Document(value: Json)

  datatype Event = Event(
    id: string,
    sourceId: string,
    body: Body,
    fileUrl: string,
    fileStorePath: string,
    extracted: Json)

  datatype QueueName = Incoming | Delivery | Extraction | DeadLetter

  datatype Dequeued = Nothing | Failed | Unreadable | Got(event: Event)

  type Decoder = string -> Option<Event>

  predicate Matches(decode: Decoder, raw: string, id: string) {
    decode(raw).Some? && decode(raw).value.id == id
  }

  /** Index of the first list entry with this event id, or the length when there is none. */
  function FirstMatch(decode: Decoder, l: seq<string>, id: string): (i: nat)
    ensures i <= |l|
    ensures forall j :: 0 <= j < i ==> !Matches(decode, l[j], id)
    ensures i < |l| ==> Matches(decode, l[i], id)
    ensures forall j :: 0 <= j < i ==> decode(l[j]).None? || decode(l[j]).value.id != id
    ensures i < |l| ==> decode(l[i]).Some? && decode(l[i]).value.id == id
  {
    if l == [] then 0 else if Matches(decode, l[0], id) then 0 else 1 + FirstMatch(decode, l[1..], id)
  }

  function FirstIndex(l: seq<string>, raw: string): (i: nat)
    ensures i <= |l|
    ensures raw !in l[..i]
    ensures i < |l| ==> l[i] == raw
  {
    if l == [] then 0 else if l[0] == raw then 0 else 1 + FirstIndex(l[1..], raw)
  }

  function RemoveAt<T>(l: seq<T>, i: nat): seq<T> {
    if i < |l| then l[..i] + l[i + 1..] else l
  }

  /** The entries before and after the removed one stay, in order. */
  lemma RemoveAtKeepsOrder<T>(l: seq<T>, i: nat)
    requires i < |l|
    ensures |RemoveAt(l, i)| == |l| - 1
    ensures forall j :: 0 <= j < i ==> RemoveAt(l, i)[j] == l[j]
    ensures forall j :: i <= j < |l| - 1 ==> RemoveAt(l, i)[j] == l[j + 1]
  {
  }

  /** LREM with count 1. */
  function RemoveValue(l: seq<string>, raw: string): seq<string> {
    RemoveAt(l, FirstIndex(l, raw))
  }

  /** Removal by value hits the entry the scan found: an earlier equal entry would have matched too. */
  lemma RemovalHitsTheMatch(decode: Decoder, l: seq<string>, id: string)
    requires FirstMatch(decode, l, id) < |l|
    ensures FirstIndex(l, l[FirstMatch(decode, l, id)]) == FirstMatch(decode, l, id)
  {
    var i := FirstMatch(decode, l, id);
    var j := FirstIndex(l, l[i]);
    assert forall k :: 0 <= k < j ==> l[k] == l[..j][k];
  }

  class RedisQueue {
    const encode: Event -> string
    const decode: Decoder
    var lists: map<QueueName, seq<string>>

    /** All four lists are there; about the codec nothing is assumed. */
    ghost predicate Valid()
      reads this
    {
      Incoming in lists && Delivery in lists && Extraction in lists && DeadLetter in lists
    }

    /** A client of lists that are already there. */
    constructor (encode: Event -> string, decode: Decoder, lists: map<QueueName, seq<string>>)
      requires Incoming in lists && Delivery in lists && Extraction in lists && DeadLetter in lists
      ensures Valid() && this.encode == encode && this.decode == decode && this.lists == lists
    {
      this.encode, this.decode, this.lists := encode, decode, lists;
    }

    method Enqueue(q: QueueName, event: Event, fails: bool) returns (ok: bool)
      requires Valid()
      modifies this
      ensures Valid() && ok == !fails
      ensures lists == if ok then old(lists)[q := old(lists[q]) + [encode(event)]] else old(lists)
    {
      ok := !fails;
      if ok {
        lists := lists[q := lists[q] + [encode(event)]];
      }
    }

    /** BLPop, then decode; an entry that cannot be decoded is gone. */
    method Dequeue(q: QueueName, fails: bool) returns (r: Dequeued)
      requires Valid()
      modifies this
      ensures Valid()
      ensures fails ==> r == Failed && lists == old(lists)
      ensures !fails && old(lists[q]) == [] ==> r == Nothing && lists == old(lists)
      ensures !fails && old(lists[q]) != [] ==>
                && lists == old(lists)[q := old(lists[q])[1..]]
                && r == (match decode(old(lists[q])[0]) case Some(e) => Got(e) case None => Unreadable)
    {
      if fails {
        return Failed;
      }
      if lists[q] == [] {
        return Nothing;
      }
      var raw := lists[q][0];
      lists := lists[q := lists[q][1..]];
      match decode(raw) {
        case Some(e) => r := Got(e);
        case None => r := Unreadable;
      }
    }

    method FindDLQEntry(id: string) returns (raw: string, event: Option<Event>)
      requires Valid()
      ensures var l := lists[DeadLetter];
              var i := FirstMatch(decode, l, id);
              if i < |l| then raw == l[i] && event == decode(l[i]) else raw == "" && event == None
    {
      var l := lists[DeadLetter];
      for i := 0 to |l|
        invariant forall j :: 0 <= j < i ==> !Matches(decode, l[j], id)
      {
        var parsed := decode(l[i]);
        if parsed.None? {
          continue;
        }
        if parsed.value.id == id {
          return l[i], parsed;
        }
      }
      raw, event := "", None;
    }

    method RemoveDLQEntry(raw: string, fails: bool)
      requires Valid()
      modifies this
      ensures Valid()
      ensures lists == if fails then old(lists) else old(lists)[DeadLetter := RemoveValue(old(lists[DeadLetter]), raw)]
    {
      if !fails {
        lists := lists[DeadLetter := RemoveValue(lists[DeadLetter], raw)];
      }
    }
  }
}
