/** The services slice (src/features/services/servicesSlice.ts): the list
    of service listings, the listing on display, and the pure parts of the
    thunks that produce its payloads. */
module ServicesSlice {
  import opened Common
  import opened Types
  import IdList
  import Lifecycle

  datatype Data = Data(services: seq<Service>, currentService: Option<Service>)

  type State = Lifecycle.Slice<Data>

  const Initial: State := Lifecycle.Slice(Data([], None), false, None)

  /** The six asynchronous thunks; each contributes a pending, a fulfilled
      and a rejected action. */
  datatype Thunk =
    | FetchServices
    | FetchServicesByCategory
    | FetchServiceById
    | CreateService
    | UpdateService
    | DeleteService

  datatype Action =
    | ClearCurrentService
    | ClearError
    | Pending(thunk: Thunk)
    | Rejected(thunk: Thunk, message: string)
    | ServicesFetched(services: seq<Service>)
    | ServicesByCategoryFetched(services: seq<Service>)
    | ServiceFetched(service: Service)
    | ServiceCreated(service: Service)
    | ServiceUpdated(service: Service)
    | ServiceDeleted(id: string)

  /** `createService.fulfilled`: the new listing is pushed at the end and
      becomes the current one. */
  function Created(d: Data, p: Service): (e: Data)
    ensures |e.services| == |d.services| + 1
    ensures e.services[..|d.services|] == d.services && e.services[|d.services|] == p
    ensures e.currentService == Some(p)
  {
    Data(d.services + [p], Some(p))
  }

  /** `updateService.fulfilled`: the first listing with the payload's id is
      replaced and nothing else moves; with no such listing the list is kept.
      Either way the payload becomes the current listing. */
  function Updated(d: Data, p: Service): (e: Data)
    ensures |e.services| == |d.services|
    ensures !IdList.HasKey(d.services, ServiceId, p.id) ==> e.services == d.services
    ensures forall i :: IdList.FirstOfKey(d.services, ServiceId, i) && d.services[i].id == p.id ==>
      e.services == d.services[i := p]
    ensures e.currentService == Some(p)
  {
    Data(IdList.ReplaceFirst(d.services, ServiceId, p), Some(p))
  }

  /** `deleteService.fulfilled`: every listing with the id goes, every other
      one stays with its multiplicity; the current listing is cleared only
      when it is the one deleted. */
  function Deleted(d: Data, id: string): (e: Data)
    ensures forall y :: y in e.services ==> y.id != id
    ensures forall y :: multiset(e.services)[y] == if y.id == id then 0 else multiset(d.services)[y]
    ensures d.currentService.Some? && d.currentService.value.id == id ==> e.currentService == None
    ensures !(d.currentService.Some? && d.currentService.value.id == id) ==> e.currentService == d.currentService
  {
    var kept := IdList.RemoveAll(d.services, ServiceId, id);
    assert forall y :: y in kept ==> y.id != id by {
      forall y | y in kept ensures y.id != id {
        assert multiset(kept)[y] > 0;
      }
    }
    Data(kept, if d.currentService.Some? && d.currentService.value.id == id then None else d.currentService)
  }

  /** The slice reducer. */
  function Reduce(s: State, a: Action): (t: State)
    ensures a.Pending? ==> t.isLoading && t.error == None && t.data == s.data
    ensures a.Rejected? ==> !t.isLoading && t.error == Some(a.message) && t.data == s.data
    ensures a.ClearCurrentService? ==>
      t.data.currentService == None && t.data.services == s.data.services
      && t.isLoading == s.isLoading && t.error == s.error
    ensures a.ClearError? ==> t.error == None && t.data == s.data && t.isLoading == s.isLoading
    ensures !(a.Pending? || a.Rejected? || a.ClearCurrentService? || a.ClearError?) ==>
      !t.isLoading && t.error == s.error
    ensures (a.ServicesFetched? || a.ServicesByCategoryFetched?) ==>
      t.data.services == a.services && t.data.currentService == s.data.currentService
    ensures a.ServiceFetched? ==>
      t.data.services == s.data.services && t.data.currentService == Some(a.service)
    ensures a.ServiceCreated? ==> t.data == Created(s.data, a.service)
    ensures a.ServiceUpdated? ==> t.data == Updated(s.data, a.service)
    ensures a.ServiceDeleted? ==> t.data == Deleted(s.data, a.id)
  {
    match a
    case ClearCurrentService => s.(data := s.data.(currentService := None))
    case ClearError => Lifecycle.ClearError(s)
    case Pending(_) => Lifecycle.Start(s)
    case Rejected(_, m) => Lifecycle.Fail(s, m)
    case ServicesFetched(l) => Lifecycle.Settle(s, s.data.(services := l))
    case ServicesByCategoryFetched(l) => Lifecycle.Settle(s, s.data.(services := l))
    case ServiceFetched(p) => Lifecycle.Settle(s, s.data.(currentService := Some(p)))
    case ServiceCreated(p) => Lifecycle.Settle(s, Created(s.data, p))
    case ServiceUpdated(p) => Lifecycle.Settle(s, Updated(s.data, p))
    case ServiceDeleted(id) => Lifecycle.Settle(s, Deleted(s.data, id))
  }

  /** An attempt that fails leaves the listings and the current listing as
      they were and changes only the two flags. */
  lemma FailedAttemptKeepsData(s: State, th: Thunk, m: string)
    ensures Reduce(Reduce(s, Action.Pending(th)), Rejected(th, m)) == s.(isLoading := false, error := Some(m))
  {
  }

  /** Payloads that keep ids unique: fetched lists without duplicate ids and
      a created listing whose id the store has just assigned. */
  ghost predicate Admissible(s: State, a: Action) {
    match a
    case ServicesFetched(l) => IdList.UniqueKeys(l, ServiceId)
    case ServicesByCategoryFetched(l) => IdList.UniqueKeys(l, ServiceId)
    case ServiceCreated(p) => !IdList.HasKey(s.data.services, ServiceId, p.id)
    case _ => true
  }

  /** Unique listing ids are an invariant of the reducer under admissible
      payloads: update replaces in place and delete only removes. */
  lemma ReducePreservesUniqueIds(s: State, a: Action)
    requires IdList.UniqueKeys(s.data.services, ServiceId)
    requires Admissible(s, a)
    ensures IdList.UniqueKeys(Reduce(s, a).data.services, ServiceId)
  {
    match a
    case ServiceUpdated(p) => IdList.ReplaceFirstKeepsUnique(s.data.services, ServiceId, p);
    case ServiceDeleted(id) => IdList.RemoveAllKeepsUnique(s.data.services, ServiceId, id);
    case _ =>
  }

  /** Deleting a freshly created listing undoes the creation: the list is
      back to what it was and no listing is current. */
  lemma DeleteUndoesCreate(s: State, p: Service)
    requires !IdList.HasKey(s.data.services, ServiceId, p.id)
    ensures Reduce(Reduce(s, ServiceCreated(p)), ServiceDeleted(p.id)).data == Data(s.data.services, None)
  {
    var xs := s.data.services;
    IdList.RemoveAllConcat(xs, [p], ServiceId, p.id);
    IdList.RemoveAllAbsent(xs, ServiceId, p.id);
    assert IdList.RemoveAll([p], ServiceId, p.id) == [];
  }

  /** Deleting the same id twice is deleting it once. */
  lemma DeleteIdempotent(s: State, id: string)
    ensures Reduce(Reduce(s, ServiceDeleted(id)), ServiceDeleted(id)) == Reduce(s, ServiceDeleted(id))
  {
    IdList.RemoveAllIdempotent(s.data.services, ServiceId, id);
  }

  /** The fields a provider supplies for a new listing. `rating` and
      `reviewCount` are present in the draft's type but are overwritten. */
  datatype ServiceDraft = ServiceDraft(
    providerId: string,
    title: string,
    description: string,
    category: string,
    price: int,
    location: string,
    rating: real,
    reviewCount: nat)

  /** The record `createService` writes and returns. */
  function NewServiceRecord(id: string, draft: ServiceDraft, imageUrl: string, now: nat): (r: Service)
    ensures r.id == id && r.imageUrl == imageUrl && r.createdAt == now
    ensures r.rating == 0.0 && r.reviewCount == 0
    ensures r.providerId == draft.providerId && r.title == draft.title
      && r.description == draft.description && r.category == draft.category
      && r.price == draft.price && r.location == draft.location
  {
    Service(id, draft.providerId, draft.title, draft.description, draft.category,
            draft.price, imageUrl, draft.location, 0.0, 0, now)
  }

  /** `createService`: the image upload (returning its download URL) comes
      first; the listing is written only after it succeeded, and the store's
      new document id becomes the listing's id. */
  function CreateServiceResult(draft: ServiceDraft, upload: Write<string>, add: Write<string>, now: nat): (r: Result<Service>)
    ensures r.Ok? <==> upload.Written? && add.Written?
    ensures upload.WriteFailed? ==> r == Err(upload.message)
    ensures upload.Written? && add.WriteFailed? ==> r == Err(add.message)
    ensures r.Ok? ==> r.value == NewServiceRecord(add.value, draft, upload.value, now)
    ensures r.Ok? ==> r.value.rating == 0.0 && r.value.reviewCount == 0
  {
    match upload
    case WriteFailed(m) => Err(m)
    case Written(url) =>
      match add
      case WriteFailed(m) => Err(m)
      case Written(docId) => Ok(NewServiceRecord(docId, draft, url, now))
  }

  /** `fetchServiceById`: an existing document fulfils with the document's
      id, a missing one rejects with "Service not found", a failed read
      rejects with the store's message. */
  function FetchServiceByIdResult(id: string, read: Read<Service>): (r: Result<Service>)
    ensures r.Ok? <==> read.Found?
    ensures r.Ok? ==> r.value == read.data.(id := id)
    ensures read.Missing? ==> r == Err("Service not found")
    ensures read.ReadFailed? ==> r == Err(read.message)
  {
    match ReadOrReject(read, "Service not found")
    case Ok(d) => Ok(d.(id := id))
    case Err(m) => Err(m)
  }

  /** What a settled `createService` does to the slice: on success the new
      listing — under the store's id, with the uploaded image, rated 0 with
      no reviews — is last in the list and on display; on failure the list
      is as it was and the first failure's message is shown. A fresh id
      keeps listing ids unique. */
  lemma CreateReachesList(s: State, draft: ServiceDraft, upload: Write<string>, add: Write<string>, now: nat)
    ensures var r := CreateServiceResult(draft, upload, add, now);
      var t := Reduce(Reduce(s, Action.Pending(CreateService)),
                      if r.Ok? then ServiceCreated(r.value) else Rejected(CreateService, r.message));
      && !t.isLoading
      && (upload.Written? && add.Written? ==>
            && |t.data.services| == |s.data.services| + 1
            && t.data.services[..|s.data.services|] == s.data.services
            && var p := t.data.services[|s.data.services|];
            && p.id == add.value && p.imageUrl == upload.value && p.createdAt == now
            && p.rating == 0.0 && p.reviewCount == 0
            && p.title == draft.title && p.providerId == draft.providerId && p.price == draft.price
            && t.data.currentService == Some(p) && t.error == None)
      && (upload.WriteFailed? ==> t.data == s.data && t.error == Some(upload.message))
      && (upload.Written? && add.WriteFailed? ==> t.data == s.data && t.error == Some(add.message))
    ensures add.Written? && IdList.UniqueKeys(s.data.services, ServiceId)
            && !IdList.HasKey(s.data.services, ServiceId, add.value) ==>
      var r := CreateServiceResult(draft, upload, add, now);
      IdList.UniqueKeys(Reduce(Reduce(s, Action.Pending(CreateService)),
                               if r.Ok? then ServiceCreated(r.value) else Rejected(CreateService, r.message)).data.services,
                        ServiceId)
  {
    var r := CreateServiceResult(draft, upload, add, now);
    var s1 := Reduce(s, Action.Pending(CreateService));
    var a := if r.Ok? then ServiceCreated(r.value) else Rejected(CreateService, r.message);
    if add.Written? && IdList.UniqueKeys(s.data.services, ServiceId)
       && !IdList.HasKey(s.data.services, ServiceId, add.value) {
      ReducePreservesUniqueIds(s1, a);
    }
  }

  /** What a settled `fetchServiceById` does to the slice: an existing
      document goes on display under the requested id; a missing one or a
      failed read leaves the listings and the listing on display alone and
      shows "Service not found" or the store's message. */
  lemma FetchServiceByIdReaches(s: State, id: string, read: Read<Service>)
    ensures var r := FetchServiceByIdResult(id, read);
      var t := Reduce(Reduce(s, Action.Pending(FetchServiceById)),
                      if r.Ok? then ServiceFetched(r.value) else Rejected(FetchServiceById, r.message));
      && !t.isLoading && t.data.services == s.data.services
      && (read.Found? ==> t.data.currentService == Some(read.data.(id := id)) && t.error == None)
      && (read.Missing? ==> t.data == s.data && t.error == Some("Service not found"))
      && (read.ReadFailed? ==> t.data == s.data && t.error == Some(read.message))
  {
  }
}
