/** The client's document-write wrappers: each performs one write and, when
    the store rejects it, both announces a permission error on the global
    error channel and rejects with that same error. */
module NonBlockingUpdates {
  import opened Common
  import opened Platform

  /** The tag each write reports to the access-rule diagnostics. */
  function OperationName(op: Operation): string
  {
    match op
    case Write => "write"
    case Create => "create"
    case Update => "update"
    case Delete => "delete"
  }

  /** The process-wide event channel; `emitted` lists the `permission-error`
      events in the order they were sent. */
  class ErrorEmitter {
    var emitted: seq<PermissionRequest>

    constructor()
      ensures emitted == []
    {
      emitted := [];
    }
  }

  /** Awaits a settled operation: its value passes through untouched, its
      failure is wrapped, emitted once and rethrown. */
  method HandleFirestoreOperation<T>(
    emitter: ErrorEmitter, operation: Result<T, string>,
    path: string, op: Operation, data: Option<Doc>)
    returns (r: Result<T, Thrown>)
    modifies emitter
    ensures operation.Success? ==> r == Success(operation.value) && emitter.emitted == old(emitter.emitted)
    ensures operation.Failure? ==>
      var request := PermissionRequest(path, op, data, operation.error);
      && r == Failure(PermissionError(request))
      && emitter.emitted == old(emitter.emitted) + [request]
  {
    match operation
    case Success(v) =>
      r := Success(v);
    case Failure(code) =>
      var request := PermissionRequest(path, op, data, code);
      emitter.emitted := emitter.emitted + [request];
      r := Failure(PermissionError(request));
  }

  /** The code an update of a missing document fails with. */
  const NOT_FOUND := "not-found"

  /** The request a rejected write reports. */
  function Rejected(path: string, op: Operation, data: Option<Doc>, code: string): Thrown
  {
    PermissionError(PermissionRequest(path, op, data, code))
  }

  /** `setDoc(ref, data, {})`: overwrites the document. `rejection` is the
      error code the store answers with (its access rules, the network),
      `None` when it accepts the write. */
  method SetDocument(b: Backend, emitter: ErrorEmitter, ref: DocRef, data: Doc, rejection: Option<string>)
    returns (r: Result<(), Thrown>)
    modifies b, emitter
    ensures b.accounts == old(b.accounts) && b.claims == old(b.claims)
    ensures r.Success? <==> rejection.None?
    ensures rejection.Some? ==>
      (&& b.users == old(b.users) && b.pages == old(b.pages)
       && r == Failure(Rejected(Path(ref), Write, Some(data), rejection.value))
       && emitter.emitted == old(emitter.emitted) + [r.error.request])
    ensures rejection.None? ==>
      (&& b.Docs(ref.collection) == old(b.Docs(ref.collection))[ref.id := data]
       && emitter.emitted == old(emitter.emitted))
    ensures ref.collection == Users ==> b.pages == old(b.pages)
    ensures ref.collection == WikiPages ==> b.users == old(b.users)
  {
    var outcome: Result<(), string>;
    if rejection.Some? {
      outcome := Failure(rejection.value);
    } else {
      b.PutDoc(ref.collection, ref.id, data);
      outcome := Success(());
    }
    r := HandleFirestoreOperation(emitter, outcome, Path(ref), Write, Some(data));
  }

  /** `addDoc(collection, data)`: creates a document under the fresh id the
      store draws, given here as `newId`; the reported path is the
      collection's. */
  method AddDocument(b: Backend, emitter: ErrorEmitter, c: Collection, newId: string, data: Doc, rejection: Option<string>)
    returns (r: Result<DocRef, Thrown>)
    modifies b, emitter
    ensures b.accounts == old(b.accounts) && b.claims == old(b.claims)
    ensures r.Success? <==> rejection.None?
    ensures r.Success? ==>
      (&& r.value == DocRef(c, newId)
       && b.Docs(c) == old(b.Docs(c))[newId := data]
       && emitter.emitted == old(emitter.emitted))
    ensures rejection.Some? ==>
      (&& b.users == old(b.users) && b.pages == old(b.pages)
       && r == Failure(Rejected(CollectionName(c), Create, Some(data), rejection.value))
       && emitter.emitted == old(emitter.emitted) + [r.error.request])
    ensures c == Users ==> b.pages == old(b.pages)
    ensures c == WikiPages ==> b.users == old(b.users)
  {
    var outcome: Result<DocRef, string>;
    if rejection.Some? {
      outcome := Failure(rejection.value);
    } else {
      b.PutDoc(c, newId, data);
      outcome := Success(DocRef(c, newId));
    }
    r := HandleFirestoreOperation(emitter, outcome, CollectionName(c), Create, Some(data));
  }

  /** `updateDoc(ref, data)`: merges the given fields into an existing
      document; a missing document is rejected with `not-found`. */
  method UpdateDocument(b: Backend, emitter: ErrorEmitter, ref: DocRef, data: Doc, rejection: Option<string>)
    returns (r: Result<(), Thrown>)
    modifies b, emitter
    ensures b.accounts == old(b.accounts) && b.claims == old(b.claims)
    ensures r.Success? <==> rejection.None? && ref.id in old(b.Docs(ref.collection))
    ensures r.Success? ==>
      (&& b.Docs(ref.collection) == old(b.Docs(ref.collection))[ref.id := old(b.Docs(ref.collection))[ref.id] + data]
       && emitter.emitted == old(emitter.emitted))
    ensures r.Failure? ==>
      (&& b.users == old(b.users) && b.pages == old(b.pages)
       && r.error == Rejected(Path(ref), Update, Some(data), if rejection.Some? then rejection.value else NOT_FOUND)
       && emitter.emitted == old(emitter.emitted) + [r.error.request])
    ensures ref.collection == Users ==> b.pages == old(b.pages)
    ensures ref.collection == WikiPages ==> b.users == old(b.users)
  {
    var outcome: Result<(), string>;
    var docs := b.Docs(ref.collection);
    if rejection.Some? {
      outcome := Failure(rejection.value);
    } else if ref.id !in docs {
      outcome := Failure(NOT_FOUND);
    } else {
      b.PutDoc(ref.collection, ref.id, docs[ref.id] + data);
      outcome := Success(());
    }
    r := HandleFirestoreOperation(emitter, outcome, Path(ref), Update, Some(data));
  }

  /** `deleteDoc(ref)`: removes the document; deleting a missing one succeeds.
      The reported request carries no data. */
  method DeleteDocument(b: Backend, emitter: ErrorEmitter, ref: DocRef, rejection: Option<string>)
    returns (r: Result<(), Thrown>)
    modifies b, emitter
    ensures b.accounts == old(b.accounts) && b.claims == old(b.claims)
    ensures r.Success? <==> rejection.None?
    ensures rejection.None? ==>
      (&& b.Docs(ref.collection) == old(b.Docs(ref.collection)) - {ref.id}
       && emitter.emitted == old(emitter.emitted))
    ensures rejection.Some? ==>
      (&& b.users == old(b.users) && b.pages == old(b.pages)
       && r == Failure(Rejected(Path(ref), Delete, None, rejection.value))
       && emitter.emitted == old(emitter.emitted) + [r.error.request])
    ensures ref.collection == Users ==> b.pages == old(b.pages)
    ensures ref.collection == WikiPages ==> b.users == old(b.users)
  {
    var outcome: Result<(), string>;
    if rejection.Some? {
      outcome := Failure(rejection.value);
    } else {
      b.RemoveDoc(ref.collection, ref.id);
      outcome := Success(());
    }
    r := HandleFirestoreOperation(emitter, outcome, Path(ref), Delete, None);
  }
}
