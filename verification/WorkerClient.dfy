/** The worker client's mailbox: messages meet waiters by job and type, in whichever order they come. */
module WorkerClient {
  import opened Options

  datatype Message = Message(jobId: string, kind: string, payload: string)

  /** A pending waitFor; ids stand for object identity. */
  datatype Waiter = Waiter(id: nat, kinds: set<string>)

  /** The messages of one job and type, in order. */
  function Of(messages: seq<Message>, jobId: string, kind: string): seq<Message> {
    if messages == [] then []
    else (if messages[0].jobId == jobId && messages[0].kind == kind then [messages[0]] else []) + Of(messages[1..], jobId, kind)
  }

  lemma {:induction false} OfAppend(messages: seq<Message>, last: Message, jobId: string, kind: string)
    ensures Of(messages + [last], jobId, kind) ==
      Of(messages, jobId, kind) + if last.jobId == jobId && last.kind == kind then [last] else []
  {
    if messages == [] {
      assert messages + [last] == [last];
    } else {
      assert (messages + [last])[1..] == messages[1..] + [last];
      OfAppend(messages[1..], last, jobId, kind);
    }
  }

  /** Taking out the first message of a type takes the oldest of that type and leaves the other types alone. */
  lemma {:induction false} OfRemove(messages: seq<Message>, i: nat, jobId: string, kind: string)
    requires i < |messages|
    requires forall k :: 0 <= k < i ==> messages[k].kind != messages[i].kind
    ensures Of(messages, jobId, kind) ==
      (if messages[i].jobId == jobId && messages[i].kind == kind then [messages[i]] else [])
      + Of(messages[..i] + messages[i + 1..], jobId, kind)
  {
    if i > 0 {
      assert (messages[..i] + messages[i + 1..])[1..] == messages[1..][..i - 1] + messages[1..][i..];
      OfRemove(messages[1..], i - 1, jobId, kind);
    } else {
      assert messages[..0] + messages[1..] == messages[1..];
    }
  }

  lemma {:induction false} NoneOf(messages: seq<Message>, jobId: string, kind: string)
    requires forall k :: 0 <= k < |messages| ==> messages[k].kind != kind || messages[k].jobId != jobId
    ensures Of(messages, jobId, kind) == []
  {
    if messages != [] {
      NoneOf(messages[1..], jobId, kind);
    }
  }

  function At<T>(lists: map<string, seq<T>>, jobId: string): seq<T> {
    if jobId in lists then lists[jobId] else []
  }

  ghost predicate QueuesOk(queues: map<string, seq<Message>>) {
    forall jobId, i :: jobId in queues && 0 <= i < |queues[jobId]| ==> queues[jobId][i].jobId == jobId
  }

  /** No queued message matches a pending waiter of its job. */
  ghost predicate Apart(queues: map<string, seq<Message>>, waiters: map<string, seq<Waiter>>) {
    forall jobId, i, k :: jobId in queues && jobId in waiters && 0 <= i < |queues[jobId]| && 0 <= k < |waiters[jobId]|
      ==> queues[jobId][i].kind !in waiters[jobId][k].kinds
  }

  /** Received is consumed plus queued, for each job and type in arrival order. */
  ghost predicate Conserved(received: seq<Message>, consumed: seq<Message>, queues: map<string, seq<Message>>) {
    forall jobId, kind :: Of(received, jobId, kind) == Of(consumed, jobId, kind) + Of(At(queues, jobId), jobId, kind)
  }

  lemma QueueGrows(received: seq<Message>, consumed: seq<Message>, queues: map<string, seq<Message>>, message: Message)
    requires QueuesOk(queues) && Conserved(received, consumed, queues)
    ensures var after := queues[message.jobId := At(queues, message.jobId) + [message]];
      QueuesOk(after) && Conserved(received + [message], consumed, after)
  {
    hide Of;
    var after := queues[message.jobId := At(queues, message.jobId) + [message]];
    forall jobId, kind
      ensures Of(received + [message], jobId, kind) == Of(consumed, jobId, kind) + Of(At(after, jobId), jobId, kind)
    {
      OfAppend(received, message, jobId, kind);
      OfAppend(At(queues, message.jobId), message, jobId, kind);
      var own := if message.jobId == jobId && message.kind == kind then [message] else [];
      Regroup(Of(consumed, jobId, kind), Of(At(queues, jobId), jobId, kind), own);
    }
  }

  lemma Regroup(a: seq<Message>, b: seq<Message>, c: seq<Message>)
    ensures a + b + c == a + (b + c) && a + b + [] == a + b
  {
    assert a + b + c == a + (b + c);
  }

  lemma QueueShrinks(
    received: seq<Message>, consumed: seq<Message>, queues: map<string, seq<Message>>, jobId: string, i: nat)
    requires QueuesOk(queues) && Conserved(received, consumed, queues)
    requires jobId in queues && i < |queues[jobId]|
    requires forall k :: 0 <= k < i ==> queues[jobId][k].kind != queues[jobId][i].kind
    ensures var after := queues[jobId := queues[jobId][..i] + queues[jobId][i + 1..]];
      QueuesOk(after) && Conserved(received, consumed + [queues[jobId][i]], after)
  {
    hide Of;
    var message := queues[jobId][i];
    var after := queues[jobId := queues[jobId][..i] + queues[jobId][i + 1..]];
    forall job, kind
      ensures Of(received, job, kind) == Of(consumed + [message], job, kind) + Of(At(after, job), job, kind)
    {
      OfAppend(consumed, message, job, kind);
      OfRemove(queues[jobId], i, job, kind);
      var own := if message.jobId == job && message.kind == kind then [message] else [];
      Regroup(Of(consumed, job, kind), own, Of(At(after, job), job, kind));
      NothingFirst(Of(At(after, job), job, kind));
    }
  }

  lemma NothingFirst(a: seq<Message>)
    ensures [] + a == a
  {
  }

  /** A message handed straight to a waiter overtakes nothing: no message of its type is queued for the job. */
  lemma HandedOver(received: seq<Message>, consumed: seq<Message>, queues: map<string, seq<Message>>, message: Message)
    requires QueuesOk(queues) && Conserved(received, consumed, queues)
    requires forall k :: 0 <= k < |At(queues, message.jobId)| ==> At(queues, message.jobId)[k].kind != message.kind
    ensures Conserved(received + [message], consumed + [message], queues)
  {
    forall job, kind
      ensures Of(received + [message], job, kind) == Of(consumed + [message], job, kind) + Of(At(queues, job), job, kind)
    {
      OfAppend(received, message, job, kind);
      OfAppend(consumed, message, job, kind);
      if job == message.jobId && kind == message.kind {
        NoneOf(At(queues, job), job, kind);
        assert Of(consumed, job, kind) + [] == Of(consumed, job, kind);
        assert Of(consumed, job, kind) + [message] + [] == Of(consumed, job, kind) + [message];
      } else {
        assert Of(received, job, kind) + [] == Of(received, job, kind) && Of(consumed, job, kind) + [] == Of(consumed, job, kind);
      }
    }
  }

  datatype Answer = Now(message: Message) | Later(waiter: nat)

  class RandomXWorkerClient {
    var queues: map<string, seq<Message>>
    var waiters: map<string, seq<Waiter>>
    var nextWaiter: nat
    /** History: everything delivered, and everything handed to a caller, in order. */
    ghost var received: seq<Message>
    ghost var consumed: seq<Message>

    ghost predicate Valid()
      reads this
    {
      QueuesOk(queues) && Apart(queues, waiters) && Conserved(received, consumed, queues)
    }

    constructor ()
      ensures Valid() && queues == map[] && waiters == map[] && received == consumed == []
    {
      queues, waiters, nextWaiter, received, consumed := map[], map[], 0, [], [];
    }

    /** Takes the first queued message of an expected type (or an error), else joins the job's waiters. */
    method WaitFor(jobId: string, expectedKinds: set<string>) returns (answer: Answer)
      requires Valid()
      modifies this
      ensures Valid() && received == old(received)
      ensures var kinds := expectedKinds + {"error"}; var queue := At(old(queues), jobId);
        match answer
        case Now(message) =>
          && waiters == old(waiters) && consumed == old(consumed) + [message]
          && exists i :: (0 <= i < |queue| && queue[i] == message && message.kind in kinds
            && (forall k :: 0 <= k < i ==> queue[k].kind !in kinds)
            && queues == old(queues)[jobId := queue[..i] + queue[i + 1..]])
        case Later(id) =>
          && (forall k :: 0 <= k < |queue| ==> queue[k].kind !in kinds)
          && queues == old(queues) && consumed == old(consumed)
          && waiters == old(waiters)[jobId := At(old(waiters), jobId) + [Waiter(id, kinds)]]
    {
      hide Conserved;
      var kinds := expectedKinds + {"error"};
      var queue := At(queues, jobId);
      var i := 0;
      while i < |queue| && queue[i].kind !in kinds
        invariant i <= |queue| && forall k :: 0 <= k < i ==> queue[k].kind !in kinds
      {
        i := i + 1;
      }
      if i < |queue| {
        QueueShrinks(received, consumed, queues, jobId, i);
        queues := queues[jobId := queue[..i] + queue[i + 1..]];
        consumed := consumed + [queue[i]];
        return Now(queue[i]);
      }
      waiters := waiters[jobId := At(waiters, jobId) + [Waiter(nextWaiter, kinds)]];
      nextWaiter := nextWaiter + 1;
      return Later(nextWaiter - 1);
    }

    /** Hands the message to the first waiter that expects its type, else queues it. */
    method Deliver(message: Message) returns (resolved: Option<nat>)
      requires Valid()
      modifies this
      ensures Valid() && received == old(received) + [message]
      ensures var list := At(old(waiters), message.jobId);
        match resolved
        case Some(id) =>
          && consumed == old(consumed) + [message] && queues == old(queues)
          && exists i :: (0 <= i < |list| && list[i].id == id && message.kind in list[i].kinds
            && (forall k :: 0 <= k < i ==> message.kind !in list[k].kinds)
            && waiters == old(waiters)[message.jobId := list[..i] + list[i + 1..]])
        case None =>
          && (forall k :: 0 <= k < |list| ==> message.kind !in list[k].kinds)
          && consumed == old(consumed) && waiters == old(waiters)
          && queues == old(queues)[message.jobId := At(old(queues), message.jobId) + [message]]
    {
      hide Conserved;
      var list := At(waiters, message.jobId);
      var i := 0;
      while i < |list| && message.kind !in list[i].kinds
        invariant i <= |list| && forall k :: 0 <= k < i ==> message.kind !in list[k].kinds
      {
        i := i + 1;
      }
      if i < |list| {
        HandedOver(received, consumed, queues, message);
        received, consumed := received + [message], consumed + [message];
        waiters := waiters[message.jobId := list[..i] + list[i + 1..]];
        return Some(list[i].id);
      }
      QueueGrows(received, consumed, queues, message);
      received := received + [message];
      queues := queues[message.jobId := At(queues, message.jobId) + [message]];
      return None;
    }

    /** A waiter times out: it alone leaves the list. */
    method Timeout(jobId: string, id: nat)
      requires Valid()
      modifies this`waiters
      ensures Valid() && waiters == old(waiters)[jobId := Without(At(old(waiters), jobId), id)]
    {
      hide Conserved, Without;
      var list := At(waiters, jobId);
      var kept := [];
      WithoutNone(list[..0], id);
      for i := 0 to |list|
        invariant kept == Without(list[..i], id) && waiters == old(waiters) && Valid()
      {
        WithoutStep(list, i, id);
        if list[i].id != id {
          kept := kept + [list[i]];
        }
      }
      assert list[..|list|] == list;
      WithoutSubset(list, id);
      waiters := waiters[jobId := kept];
    }

    /** The worker failed: every waiter is rejected, and nothing received is lost. */
    method RejectAll()
      requires Valid()
      modifies this`waiters
      ensures Valid() && waiters == map[]
    {
      hide Conserved;
      waiters := map[];
    }
  }

  function Without(list: seq<Waiter>, id: nat): seq<Waiter> {
    if list == [] then []
    else Without(list[..|list| - 1], id) + if list[|list| - 1].id == id then [] else [list[|list| - 1]]
  }

  lemma WithoutNone(list: seq<Waiter>, id: nat)
    requires list == []
    ensures Without(list, id) == []
  {
  }

  lemma WithoutStep(list: seq<Waiter>, i: nat, id: nat)
    requires i < |list|
    ensures Without(list[..i + 1], id) == Without(list[..i], id) + if list[i].id == id then [] else [list[i]]
  {
    assert list[..i + 1][..i] == list[..i];
  }

  lemma {:induction false} WithoutSubset(list: seq<Waiter>, id: nat)
    ensures forall k :: 0 <= k < |Without(list, id)| ==> Without(list, id)[k] in list && Without(list, id)[k].id != id
    ensures forall waiter :: waiter in list && waiter.id != id ==> waiter in Without(list, id)
  {
    if list != [] {
      var n := |list| - 1;
      WithoutSubset(list[..n], id);
      assert list == list[..n] + [list[n]];
    }
  }
}
