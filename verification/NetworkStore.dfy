/**
 The bounded store of captured requests in the page network engine: a map, an insertion order, and a
 byte count kept up to date by differences. Captured requests are objects that the engine updates in
 place and recognises by identity.

 What the redactor makes of a body, or that it fails on it, and whether the capture lifecycle of an
 event is still the current one, are parameters. The bytes of a body are subtracted before its successor
 is redacted, so a failing redactor leaves the count short of them: the debt of the store.
 */
module NetworkStore {
  import opened Prelude
  import opened Utf8

  /** What NetworkRedactor.redactBody returns; where it is optional, nothing means that it throws. */
  datatype Redacted = Redacted(text: Option<Text>, omitted: bool)

  /** The fields of one stored body. */
  datatype Body = Body(text: Option<Text>, size: Option<nat>, truncated: bool, omitted: bool, present: bool)

  const NO_BODY := Body(None, None, false, false, false)

  /** utf8ByteLength */
  function ByteLength(text: Option<Text>): nat {
    if text.None? then 0 else Utf8Length(text.value)
  }

  function BodyBytes(requestBody: Body, responseBody: Body): nat {
    ByteLength(requestBody.text) + ByteLength(responseBody.text)
  }

  class CapturedRequest<Id> {
    const requestId: Id
    var requestBody: Body
    var responseBody: Body

    constructor (requestId: Id)
      ensures this.requestId == requestId && requestBody == NO_BODY && responseBody == NO_BODY
    {
      this.requestId := requestId;
      requestBody, responseBody := NO_BODY, NO_BODY;
    }

  }

  /**
   The account of the store: the order lists exactly the ids that have a size, once each, and total is
   the sum of their sizes. (Recursive, so that object invariants can carry it cheaply.)
   */
  ghost predicate Accounts<Id>(order: seq<Id>, sizes: map<Id, nat>, total: int) {
    if order == [] then sizes == map[] && total == 0
    else order[0] in sizes && Accounts(order[1..], sizes - {order[0]}, total - sizes[order[0]])
  }

  lemma {:induction false} AccountsInsert<Id>(order: seq<Id>, sizes: map<Id, nat>, total: int, id: Id, size: nat)
    requires Accounts(order, sizes, total) && id !in sizes
    ensures Accounts(order + [id], sizes[id := size], total + size)
  {
    if order == [] {
      assert sizes[id := size] - {id} == map[];
      assert (order + [id])[1..] == [];
    } else {
      AccountsInsert(order[1..], sizes - {order[0]}, total - sizes[order[0]], id, size);
      assert (order + [id])[1..] == order[1..] + [id];
      assert sizes[id := size] - {order[0]} == (sizes - {order[0]})[id := size];
    }
  }

  lemma {:induction false} AccountsUpdate<Id>(order: seq<Id>, sizes: map<Id, nat>, total: int, id: Id, size: nat)
    requires Accounts(order, sizes, total) && id in sizes
    ensures Accounts(order, sizes[id := size], total - sizes[id] + size)
  {
    if order[0] == id {
      assert sizes[id := size] - {id} == sizes - {id};
    } else {
      AccountsUpdate(order[1..], sizes - {order[0]}, total - sizes[order[0]], id, size);
      assert sizes[id := size] - {order[0]} == (sizes - {order[0]})[id := size];
    }
  }

  lemma {:induction false} AccountsKnows<Id>(order: seq<Id>, sizes: map<Id, nat>, total: int, k: nat)
    requires Accounts(order, sizes, total) && k < |order|
    ensures order[k] in sizes
  {
    if k > 0 { AccountsKnows(order[1..], sizes - {order[0]}, total - sizes[order[0]], k - 1); }
  }

  lemma {:induction false} AccountsNonNegative<Id>(order: seq<Id>, sizes: map<Id, nat>, total: int)
    requires Accounts(order, sizes, total)
    ensures total >= 0
  {
    if order != [] { AccountsNonNegative(order[1..], sizes - {order[0]}, total - sizes[order[0]]); }
  }

  function SumOf<Id>(ids: seq<Id>, sizes: map<Id, nat>): nat
    requires forall id :: id in ids ==> id in sizes
  {
    if ids == [] then 0 else sizes[ids[0]] + SumOf(ids[1..], sizes)
  }

  lemma {:induction false} SumOfOthers<Id>(ids: seq<Id>, sizes: map<Id, nat>, others: map<Id, nat>)
    requires forall id :: id in ids ==> id in sizes && id in others && sizes[id] == others[id]
    ensures SumOf(ids, sizes) == SumOf(ids, others)
  {
    if ids != [] { SumOfOthers(ids[1..], sizes, others); }
  }

  /** What an account says, position by position. */
  lemma {:induction false} AccountsMeans<Id(!new)>(order: seq<Id>, sizes: map<Id, nat>, total: int)
    requires Accounts(order, sizes, total)
    ensures Distinct(order)
    ensures forall id :: id in order <==> id in sizes
    ensures total == SumOf(order, sizes)
  {
    if order != [] {
      var rest := order[1..];
      AccountsMeans(rest, sizes - {order[0]}, total - sizes[order[0]]);
      SumOfOthers(rest, sizes, sizes - {order[0]});
      forall i, j | 0 <= i < j < |order| ensures order[i] != order[j] {
        assert order[j] == rest[j - 1] && order[j] in rest;
        if i > 0 { assert order[i] == rest[i - 1]; }
      }
      assert forall id :: id in order <==> id == order[0] || id in rest;
    }
  }

  /** The part of rs that is still listed after dropping the oldest entries beyond the limit. */
  function KeepNewest<T>(rs: seq<T>, limit: nat): seq<T> {
    if |rs| <= limit then rs else rs[|rs| - limit..]
  }

  /** A body field after setRequestBody or setResponseBody. */
  ghost predicate BodySetTo(b: Body, raw: Option<Text>, redacted: Option<Redacted>, maxBodyBytes: nat) {
    if raw.None? then b == NO_BODY
    else
      && redacted.Some?
      && b.present && b.size == Some(Utf8Length(raw.value)) && b.omitted == redacted.value.omitted
      && match redacted.value.text
         case None => b.text == None && !b.truncated
         case Some(clean) =>
           b.text.Some? &&
           IsBounded(clean, maxBodyBytes,
                     BoundedText(b.text.value, Utf8Length(clean), Utf8Length(b.text.value), b.truncated))
  }

  /** Only a body that is there is redacted. */
  predicate RedactorFails(raw: Option<Text>, redacted: Option<Redacted>) { raw.Some? && redacted.None? }

  lemma SuffixKept<T>(gone: seq<T>, kept: seq<T>, goneNow: seq<T>, keptNow: seq<T>)
    requires gone + kept == goneNow + keptNow && |gone| <= |goneNow|
    ensures keptNow == KeepNewest(kept, |keptNow|)
    ensures keptNow != [] ==> keptNow[|keptNow| - 1] == kept[|kept| - 1]
  {
    assert keptNow == (goneNow + keptNow)[|goneNow|..];
    assert (gone + kept)[|goneNow|..] == kept[|goneNow| - |gone|..];
  }

  class NetworkStore<Id(==,!new)> {
    var entries: map<Id, CapturedRequest<Id>>   // the engine's `requests`
    var order: seq<Id>
    var maxEntries: int
    var maxBodyBytes: int
    var storedBodyBytes: int
    var evictedRequests: nat
    ghost var evicted: seq<Id>        // ids evicted since the last clear, oldest first
    ghost var sizes: map<Id, nat>     // the body bytes of every stored request
    ghost var debt: nat               // the bytes by which the count is short

    /** What holds between any two operations, whatever the options of past starts were. */
    ghost predicate Valid()
      reads this, entries.Values
    {
      Booked(storedBodyBytes + debt)
    }

    /** The stored requests have this many bytes. */
    ghost predicate Booked(total: int)
      reads this`entries, this`order, this`sizes, this`maxEntries, this`maxBodyBytes, this`evicted, this`evictedRequests
      reads entries.Values
    {
      && 1 <= maxEntries && 0 <= maxBodyBytes
      && |evicted| == evictedRequests
      && entries.Keys == sizes.Keys
      && Accounts(order, sizes, total)
      && (forall id :: id in entries ==>
            entries[id].requestId == id && BodyBytes(entries[id].requestBody, entries[id].responseBody) == sizes[id])
    }

    /** The ids inserted since the last clear, in order: the evicted ones, then those still stored. */
    ghost function Inserted(): seq<Id>
      reads this
    {
      evicted + order
    }

    /** The count is the number of bytes stored. */
    ghost predicate Exact()
      reads this
    {
      debt == 0
    }

    /** The invariant in the terms of the stored requests. */
    lemma StoreMeaning()
      requires Valid()
      ensures Distinct(order)
      ensures forall id :: id in order <==> id in entries
      ensures storedBodyBytes + debt == SumOf(order, sizes)
      ensures Exact() <==> storedBodyBytes == SumOf(order, sizes)
      ensures forall id :: id in entries ==>
        var (sent, received) := (entries[id].requestBody.text, entries[id].responseBody.text);
        sizes[id] == (if sent.Some? then |Encode(sent.value)| else 0)
                     + (if received.Some? then |Encode(received.value)| else 0)
      ensures |Inserted()| == |order| + evictedRequests
      ensures order == Inserted()[evictedRequests..]
    {
      AccountsMeans(order, sizes, storedBodyBytes + debt);
    }

    predicate Bounded()
      reads this
    {
      |order| <= maxEntries
    }

    constructor (maxEntries: int, maxBodyBytes: int)
      requires 1 <= maxEntries && 0 <= maxBodyBytes
      ensures Valid() && Bounded() && Exact() && order == [] && Inserted() == []
      ensures this.maxEntries == maxEntries && this.maxBodyBytes == maxBodyBytes
    {
      entries, order, evicted, sizes := map[], [], [], map[];
      this.maxEntries, this.maxBodyBytes := maxEntries, maxBodyBytes;
      storedBodyBytes, evictedRequests, debt := 0, 0, 0;
    }

    method Clear()
      requires Valid()
      modifies this
      ensures Valid() && Bounded() && Exact()
      ensures order == [] && Inserted() == [] && entries == map[] && storedBodyBytes == 0 && evictedRequests == 0
      ensures maxEntries == old(maxEntries) && maxBodyBytes == old(maxBodyBytes)
    {
      entries, order, evicted, sizes := map[], [], [], map[];
      storedBodyBytes, evictedRequests, debt := 0, 0, 0;
    }

    /** evictOverflow. Its Math.max acts only when the debt exceeds what is stored, and then forgives the rest. */
    method EvictOverflow()
      requires Valid()
      modifies this`order, this`entries, this`sizes, this`evicted, this`evictedRequests
      modifies this`storedBodyBytes, this`debt
      ensures Valid() && Bounded()
      ensures order == KeepNewest(old(order), maxEntries)
      ensures old(order) != [] ==> old(order)[|old(order)| - 1] in entries
      ensures forall id :: id in entries ==> id in old(entries) && entries[id] == old(entries[id])
      ensures Inserted() == old(Inserted())
      ensures debt == Min(old(debt), storedBodyBytes + debt) && storedBodyBytes >= 0
    {
      while |order| > maxEntries
        invariant Valid()
        invariant |order| == old(|order|) || maxEntries <= |order| < old(|order|)
        invariant |evicted| >= old(|evicted|) && debt == old(debt)
        invariant forall id :: id in entries ==> id in old(entries) && entries[id] == old(entries[id])
        invariant Inserted() == old(Inserted())
      {
        EvictOldest();
      }
      SuffixKept(old(evicted), old(order), evicted, order);
      if order != [] { AccountsKnows(order, sizes, storedBodyBytes + debt, |order| - 1); }
      FloorCount();
    }

    /** The last statement of evictOverflow. */
    method FloorCount()
      requires Valid()
      modifies this`storedBodyBytes, this`debt
      ensures Valid() && storedBodyBytes + debt == old(storedBodyBytes + debt)
      ensures debt == Min(old(debt), storedBodyBytes + debt) && storedBodyBytes >= 0
    {
      AccountsNonNegative(order, sizes, storedBodyBytes + debt);
      ghost var stored := storedBodyBytes + debt;
      storedBodyBytes := Max(0, storedBodyBytes);
      debt := stored - storedBodyBytes;
    }

    /** The loop body of evictOverflow. */
    method EvictOldest()
      requires Valid() && order != []
      modifies this`order, this`entries, this`sizes, this`evicted, this`evictedRequests, this`storedBodyBytes
      ensures Valid()
      ensures order == old(order)[1..] && evictedRequests == old(evictedRequests) + 1
      ensures entries == old(entries) - {old(order)[0]}
      ensures Inserted() == old(Inserted())
    {
      var oldestId := order[0];
      assert oldestId in entries;  // so the source loop never takes its `continue`
      var removed := entries[oldestId];
      assert evicted + order == evicted + [oldestId] + order[1..];
      evicted, sizes := evicted + [oldestId], sizes - {oldestId};
      order := order[1..];
      storedBodyBytes :=
        storedBodyBytes - (ByteLength(removed.requestBody.text) + ByteLength(removed.responseBody.text));
      entries := entries - {oldestId};
      assert entries.Keys == old(entries.Keys) - {oldestId};
      evictedRequests := evictedRequests + 1;
    }

    /** What setRequestBody and setResponseBody store for a body that is redacted. */
    method MakeBody(raw: Option<Text>, redacted: Option<Redacted>) returns (b: Body)
      requires 0 <= maxBodyBytes && !RedactorFails(raw, redacted)
      ensures BodySetTo(b, raw, redacted, maxBodyBytes)
    {
      if raw.None? { return NO_BODY; }
      var clean := redacted.value;
      if clean.text.None? {
        return Body(None, Some(Utf8Length(raw.value)), false, clean.omitted, true);
      }
      var bounded := BoundUtf8Text(clean.text.value, maxBodyBytes);
      b := Body(Some(bounded.text), Some(Utf8Length(raw.value)), bounded.truncated, clean.omitted, true);
    }

    method SetRequestBody(r: CapturedRequest<Id>, raw: Option<Text>, redacted: Option<Redacted>) returns (ok: bool)
      requires 0 <= maxBodyBytes
      modifies this`storedBodyBytes, r
      ensures ok == !RedactorFails(raw, redacted) && r.responseBody == old(r.responseBody)
      ensures if ok then BodySetTo(r.requestBody, raw, redacted, maxBodyBytes) else unchanged(r)
      ensures storedBodyBytes ==
        old(storedBodyBytes) - ByteLength(old(r.requestBody).text) + if ok then ByteLength(r.requestBody.text) else 0
    {
      storedBodyBytes := storedBodyBytes - ByteLength(r.requestBody.text);
      if RedactorFails(raw, redacted) { return false; }
      r.requestBody := MakeBody(raw, redacted);
      storedBodyBytes := storedBodyBytes + ByteLength(r.requestBody.text);
      ok := true;
    }

    method SetResponseBody(r: CapturedRequest<Id>, raw: Option<Text>, redacted: Option<Redacted>) returns (ok: bool)
      requires 0 <= maxBodyBytes
      modifies this`storedBodyBytes, r
      ensures ok == !RedactorFails(raw, redacted) && r.requestBody == old(r.requestBody)
      ensures if ok then BodySetTo(r.responseBody, raw, redacted, maxBodyBytes) else unchanged(r)
      ensures storedBodyBytes ==
        old(storedBodyBytes) - ByteLength(old(r.responseBody).text) + if ok then ByteLength(r.responseBody.text) else 0
    {
      storedBodyBytes := storedBodyBytes - ByteLength(r.responseBody.text);
      if RedactorFails(raw, redacted) { return false; }
      r.responseBody := MakeBody(raw, redacted);
      storedBodyBytes := storedBodyBytes + ByteLength(r.responseBody.text);
      ok := true;
    }

    /**
     upsertRequest, for an event whose request id is not empty; `current` is isCurrentLifecycle of the
     listener's lifecycle. When the redactor fails on the body the exception leaves the method at once: nothing is
     stored or evicted, but the count has lost the bytes of the body that should have been replaced.
     */
    method UpsertRequest(current: bool, requestId: Id, raw: Option<Text>, redacted: Option<Redacted>) returns (ok: bool)
      requires Valid()
      modifies this, entries.Values
      ensures Valid() && ok == !(current && RedactorFails(raw, redacted))
      ensures maxEntries == old(maxEntries) && maxBodyBytes == old(maxBodyBytes)
      ensures !current ==> unchanged(this) && unchanged(old(entries.Values))
      ensures !ok ==>
        && entries == old(entries) && order == old(order) && Inserted() == old(Inserted())
        && evictedRequests == old(evictedRequests) && (forall id :: id in entries ==> unchanged(entries[id]))
        && debt == old(debt) +
             if requestId in old(entries) then ByteLength(old(entries[requestId].requestBody).text) else 0
      ensures current && ok ==> Bounded() && (old(Exact()) ==> Exact())
      ensures current && ok && requestId !in old(entries) ==>
        && Inserted() == old(Inserted()) + [requestId]
        && order == KeepNewest(old(order) + [requestId], maxEntries)
        && requestId in entries && fresh(entries[requestId])
        && BodySetTo(entries[requestId].requestBody, raw, redacted, maxBodyBytes)
        && entries[requestId].responseBody == NO_BODY
      ensures current && ok && requestId in old(entries) ==>
        && Inserted() == old(Inserted())
        && order == KeepNewest(old(order), maxEntries)
        && (requestId in entries ==> entries[requestId] == old(entries[requestId]))
        && BodySetTo(old(entries[requestId]).requestBody, raw, redacted, maxBodyBytes)
        && old(entries[requestId]).responseBody == old(entries[requestId].responseBody)
      ensures forall id :: id in entries && id != requestId ==>
        id in old(entries) && entries[id] == old(entries[id]) && unchanged(entries[id])
    {
      if !current { return true; }
      if requestId !in entries {
        ok := UpsertNew(requestId, raw, redacted);
      } else {
        ok := UpsertKnown(requestId, raw, redacted);
      }
    }

    /** upsertRequest when the id is not stored yet. */
    method UpsertNew(requestId: Id, raw: Option<Text>, redacted: Option<Redacted>) returns (ok: bool)
      requires Valid() && requestId !in entries
      modifies this
      ensures Valid() && ok == !RedactorFails(raw, redacted)
      ensures maxEntries == old(maxEntries) && maxBodyBytes == old(maxBodyBytes)
      ensures !ok ==> unchanged(this)
      ensures ok ==>
        && Bounded() && (old(Exact()) ==> Exact())
        && Inserted() == old(Inserted()) + [requestId]
        && order == KeepNewest(old(order) + [requestId], maxEntries)
        && requestId in entries && fresh(entries[requestId])
        && BodySetTo(entries[requestId].requestBody, raw, redacted, maxBodyBytes)
        && entries[requestId].responseBody == NO_BODY
      ensures forall id :: id in entries && id != requestId ==> id in old(entries) && entries[id] == old(entries[id])
    {
      ok := CaptureNew(requestId, raw, redacted);
      if ok { EvictOverflow(); }
    }

    /** upsertRequest when the id is stored: the object is updated in place. */
    method UpsertKnown(requestId: Id, raw: Option<Text>, redacted: Option<Redacted>) returns (ok: bool)
      requires Valid() && requestId in entries
      modifies this, entries[requestId]
      ensures Valid() && ok == !RedactorFails(raw, redacted)
      ensures maxEntries == old(maxEntries) && maxBodyBytes == old(maxBodyBytes) && Inserted() == old(Inserted())
      ensures !ok ==>
        && entries == old(entries) && order == old(order) && evictedRequests == old(evictedRequests)
        && unchanged(entries[requestId])
        && debt == old(debt) + ByteLength(old(entries[requestId].requestBody).text)
      ensures ok ==>
        && Bounded() && (old(Exact()) ==> Exact())
        && order == KeepNewest(old(order), maxEntries)
        && BodySetTo(old(entries[requestId]).requestBody, raw, redacted, maxBodyBytes)
        && old(entries[requestId]).responseBody == old(entries[requestId].responseBody)
      ensures forall id :: id in entries ==> id in old(entries) && entries[id] == old(entries[id])
    {
      ok := CaptureAgain(requestId, raw, redacted);
      if ok { EvictOverflow(); }
    }

    /** upsertRequest up to evictOverflow, when the id is not stored yet. */
    method CaptureNew(requestId: Id, raw: Option<Text>, redacted: Option<Redacted>) returns (ok: bool)
      requires Valid() && requestId !in entries
      modifies this`order, this`entries, this`sizes, this`storedBodyBytes
      ensures Valid() && ok == !RedactorFails(raw, redacted)
      ensures !ok ==> unchanged(this)
      ensures ok ==>
        && order == old(order) + [requestId] && Inserted() == old(Inserted()) + [requestId]
        && requestId in entries && fresh(entries[requestId])
        && entries == old(entries)[requestId := entries[requestId]]
        && BodySetTo(entries[requestId].requestBody, raw, redacted, maxBodyBytes)
        && entries[requestId].responseBody == NO_BODY
    {
      var request;
      ok, request := NewRequest(requestId, raw, redacted);
      if ok { Insert(requestId, request, old(storedBodyBytes)); }
    }

    /** A request that is not stored yet, with its body. */
    method NewRequest(requestId: Id, raw: Option<Text>, redacted: Option<Redacted>)
        returns (ok: bool, request: CapturedRequest<Id>)
      requires Valid()
      modifies this`storedBodyBytes
      ensures Booked(old(storedBodyBytes) + debt) && ok == !RedactorFails(raw, redacted)
      ensures fresh(request) && request.requestId == requestId && request.responseBody == NO_BODY
      ensures ok ==> BodySetTo(request.requestBody, raw, redacted, maxBodyBytes)
      ensures storedBodyBytes ==
        old(storedBodyBytes) + if ok then BodyBytes(request.requestBody, request.responseBody) else 0
    {
      request := new CapturedRequest(requestId);
      ok := SetRequestBody(request, raw, redacted);
    }

    /** Puts last a request whose bytes are in the count already, which was `before` without them. */
    method Insert(requestId: Id, request: CapturedRequest<Id>, ghost before: int)
      requires Booked(before + debt) && requestId !in entries && request.requestId == requestId
      requires storedBodyBytes == before + BodyBytes(request.requestBody, request.responseBody)
      modifies this`order, this`entries, this`sizes
      ensures Valid()
      ensures order == old(order) + [requestId] && Inserted() == old(Inserted()) + [requestId]
      ensures entries == old(entries)[requestId := request]
    {
      ghost var bytes := BodyBytes(request.requestBody, request.responseBody);
      AccountsInsert(order, sizes, before + debt, requestId, bytes);
      Assoc(evicted, order, [requestId]);
      order := order + [requestId];
      entries, sizes := entries[requestId := request], sizes[requestId := bytes];
    }

    /** upsertRequest up to evictOverflow, when the id is stored: the object is updated in place. */
    method CaptureAgain(requestId: Id, raw: Option<Text>, redacted: Option<Redacted>) returns (ok: bool)
      requires Valid() && requestId in entries
      modifies this`storedBodyBytes, this`sizes, this`debt, entries[requestId]
      ensures Valid() && ok == !RedactorFails(raw, redacted)
      ensures debt == old(debt) + if ok then 0 else ByteLength(old(entries[requestId].requestBody).text)
      ensures if ok then BodySetTo(entries[requestId].requestBody, raw, redacted, maxBodyBytes)
        else unchanged(entries[requestId])
      ensures entries[requestId].responseBody == old(entries[requestId].responseBody)
    {
      var request := entries[requestId];
      ok := SetRequestBody(request, raw, redacted);
      BookBodies(requestId, old(storedBodyBytes), if ok then 0 else ByteLength(request.requestBody.text));
    }

    /** A response body for a stored request. */
    method Respond(requestId: Id, handle: CapturedRequest<Id>, raw: Option<Text>, redacted: Option<Redacted>)
        returns (ok: bool)
      requires Valid() && requestId in entries && entries[requestId] == handle
      modifies this`storedBodyBytes, this`sizes, this`debt, handle
      ensures Valid() && ok == !RedactorFails(raw, redacted)
      ensures debt == old(debt) + if ok then 0 else ByteLength(old(handle.responseBody).text)
      ensures if ok then BodySetTo(handle.responseBody, raw, redacted, maxBodyBytes) else unchanged(handle)
      ensures handle.requestBody == old(handle.requestBody)
    {
      ok := SetResponseBody(handle, raw, redacted);
      BookBodies(requestId, old(storedBodyBytes), if ok then 0 else ByteLength(handle.responseBody.text));
    }

    /** Brings the account up to date after the bodies of one request and the count were changed. */
    ghost method BookBodies(requestId: Id, before: int, lost: nat)
      requires requestId in entries && entries.Keys == sizes.Keys && Accounts(order, sizes, before + debt)
      requires 1 <= maxEntries && 0 <= maxBodyBytes && |evicted| == evictedRequests
      requires forall id :: id in entries ==>
        && entries[id].requestId == id
        && (id != requestId ==> BodyBytes(entries[id].requestBody, entries[id].responseBody) == sizes[id])
      requires var request := entries[requestId];
        storedBodyBytes + lost == before - sizes[requestId] + BodyBytes(request.requestBody, request.responseBody)
      modifies this`sizes, this`debt
      ensures Valid() && debt == old(debt) + lost
    {
      var bytes := BodyBytes(entries[requestId].requestBody, entries[requestId].responseBody);
      AccountsUpdate(order, sizes, before + debt, requestId, bytes);
      sizes, debt := sizes[requestId := bytes], debt + lost;
    }

    /**
     The continuation of finishRequest: the response body of `handle` arrived. If the capture is no
     longer current, or the id now names nothing or another object, nothing changes. A failure of the redactor
     is swallowed; nothing but the count has changed then.
     */
    method FinishResponse(current: bool, requestId: Id, handle: CapturedRequest<Id>, raw: Option<Text>,
        redacted: Option<Redacted>)
      requires Valid()
      modifies this, handle
      ensures Valid()
      ensures entries == old(entries) && order == old(order) && Inserted() == old(Inserted())
      ensures evictedRequests == old(evictedRequests)
      ensures maxEntries == old(maxEntries) && maxBodyBytes == old(maxBodyBytes)
      ensures !(current && requestId in entries && entries[requestId] == handle) ==>
        unchanged(this) && unchanged(handle)
      ensures current && requestId in entries && entries[requestId] == handle && RedactorFails(raw, redacted) ==>
        unchanged(handle) && debt == old(debt) + ByteLength(old(handle.responseBody).text)
      ensures current && requestId in entries && entries[requestId] == handle && !RedactorFails(raw, redacted) ==>
        && BodySetTo(handle.responseBody, raw, redacted, maxBodyBytes) && handle.requestBody == old(handle.requestBody)
        && debt == old(debt)
    {
      if !current || requestId !in entries || entries[requestId] != handle { return; }
      var ok := Respond(requestId, handle, raw, redacted);
    }

    /**
     The option handling of start. The two limits are checked one after the other, so a start that is
     refused because of its body limit has already changed the entry limit, and has not evicted.
     */
    method Configure(newMaxEntries: Option<int>, newMaxBodyBytes: Option<int>) returns (ok: bool)
      requires Valid()
      modifies this
      ensures Valid() && Inserted() == old(Inserted()) && (old(Exact()) ==> Exact())
      ensures ok <==>
        (newMaxEntries.Some? ==> newMaxEntries.value > 0) && (newMaxBodyBytes.Some? ==> newMaxBodyBytes.value >= 0)
      ensures maxEntries ==
        if newMaxEntries.Some? && newMaxEntries.value > 0 then newMaxEntries.value else old(maxEntries)
      ensures maxBodyBytes == if ok && newMaxBodyBytes.Some? then newMaxBodyBytes.value else old(maxBodyBytes)
      ensures order == if ok then KeepNewest(old(order), maxEntries) else old(order)
      ensures old(Bounded()) ==>
        (Bounded() <==> ok || newMaxEntries.None? || newMaxEntries.value <= 0 || |old(order)| <= newMaxEntries.value)
    {
      if newMaxEntries.Some? && newMaxEntries.value <= 0 { return false; }
      maxEntries := if newMaxEntries.Some? then newMaxEntries.value else maxEntries;
      if newMaxBodyBytes.Some? && newMaxBodyBytes.value < 0 { return false; }
      maxBodyBytes := if newMaxBodyBytes.Some? then newMaxBodyBytes.value else maxBodyBytes;
      EvictOverflow();
      ok := true;
    }
  }

  /**
   The entry limit is exceeded after a refused start: two requests stored, then maxEntries 1 with a negative
   body limit.
   */
  method RefusedStartLeavesOverflow<Id(==,!new)>(first: Id, second: Id) returns (store: NetworkStore<Id>)
    requires first != second
    ensures store.Valid() && !store.Bounded()
  {
    store := new NetworkStore(250, 256_000);
    var ok := store.UpsertRequest(true, first, None, None);
    ok := store.UpsertRequest(true, second, None, None);
    ok := store.Configure(Some(1), Some(-1));
  }

  /** The count falls short: a stored request is announced again, and the redactor fails on its new body. */
  method FailedRedactionLosesBytes<Id(==,!new)>(requestId: Id, text: Text) returns (store: NetworkStore<Id>)
    requires 0 < Utf8Length(text) <= 256_000
    ensures store.Valid() && store.storedBodyBytes == 0
    ensures requestId in store.entries && store.entries[requestId].requestBody.text == Some(text)
  {
    store := new NetworkStore(250, 256_000);
    var ok := store.UpsertRequest(true, requestId, Some(text), Some(Redacted(Some(text), false)));
    var body := store.entries[requestId].requestBody;
    WholeTextFits(body.text.value, text, 256_000, body.truncated);
    ok := store.UpsertRequest(true, requestId, Some(text), None);
    store.StoreMeaning();
    assert store.order == [requestId] && store.order[1..] == [];
  }

  lemma WholeTextFits(stored: Text, text: Text, maxBytes: nat, truncated: bool)
    requires Utf8Length(text) <= maxBytes
    requires IsBounded(text, maxBytes, BoundedText(stored, Utf8Length(text), Utf8Length(stored), truncated))
    ensures stored == text
  {
    assert text[..|text|] == text;
  }

  /** A response requested before a clear never reaches the request captured under the same id afterwards. */
  method ResponseAfterClear<Id(==,!new)>(store: NetworkStore<Id>, requestId: Id, raw: Option<Text>, redacted: Redacted,
                                         lateRaw: Option<Text>, lateRedacted: Option<Redacted>)
    requires store.Valid() && requestId in store.entries
    modifies store, store.entries.Values
    ensures store.Valid() && requestId in store.entries
    ensures store.entries[requestId].responseBody == NO_BODY
    ensures BodySetTo(store.entries[requestId].requestBody, raw, Some(redacted), store.maxBodyBytes)
  {
    var handle := store.entries[requestId];
    store.Clear();
    assert store.entries == map[];
    var ok := store.UpsertRequest(true, requestId, raw, Some(redacted));
    assert store.entries[requestId] != handle;
    store.FinishResponse(true, requestId, handle, lateRaw, lateRedacted);
  }
}
