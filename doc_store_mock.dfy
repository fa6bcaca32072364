/**
 * The in-memory documentation store used by tests: a DocumentationStorage holding results,
 * statuses and deleting marks in nested maps keyed by repository ID and reference, and a
 * DocumentationStore whose default operations read and update that storage.
 */
module DocumentStoreMock {
  import opened Wrappers
  import opened Identity
  import opened Documents

  type Results = map<int64, map<Reference, DocumentationResult>>

  type Statuses = map<int64, map<Reference, map<int64, DocumentationStatus>>>

  /** Deleting marks: the time each mark was requested. */
  type Deletions = map<int64, map<Reference, Time>>

  const NoTargetSpecified: DataError := OtherError("mock: no documentation target specified")
  const NoResultSpecified: DataError := OtherError("mock: no documentation result entity specified")
  const NoStatusEntitySpecified: DataError := OtherError("mock: no documentation status entity specified")
  const NoDeletingEntitySpecified: DataError := OtherError("mock: no deleting target entity specified")
  const NoRepositoryIDSpecified: DataError := OtherError("mock: no repository id specified")
  const NoStatusSpecified: DataError := OtherError("mock: no documentation status specified")
  const NoDocumentSpecified: DataError := OtherError("mock: no document specified")

  // Results

  predicate HasResult(results: Results, t: DocumentationTarget) {
    t.repositoryID in results && t.reference in results[t.repositoryID]
  }

  function ResultAt(results: Results, target: Option<DocumentationTarget>): (r: Result<DocumentationResult, DataError>)
    ensures target.None? ==> r == Err(NoTargetSpecified)
    ensures target.Some? ==> (r.Ok? <==> HasResult(results, target.value))
    ensures target.Some? && r.Err? ==> r.error == NoSuchTarget
    ensures r.Ok? ==> r.value == results[target.value.repositoryID][target.value.reference]
  {
    match target
    case None => Err(NoTargetSpecified)
    case Some(t) =>
      if t.repositoryID !in results then Err(NoSuchTarget)
      else if t.reference !in results[t.repositoryID] then Err(NoSuchTarget)
      else Ok(results[t.repositoryID][t.reference])
  }

  /** putResultEntity: the repository level is created when missing. */
  function ResultsWith(results: Results, t: DocumentationTarget, e: DocumentationResult): (r: Results)
    ensures ResultAt(r, Some(t)) == Ok(e)
    ensures forall u :: u != t ==> ResultAt(r, Some(u)) == ResultAt(results, Some(u))
  {
    var refs := if t.repositoryID in results then results[t.repositoryID] else map[];
    results[t.repositoryID := refs[t.reference := e]]
  }

  /** deleteResultEntity: an absent target leaves the maps as they are. */
  function ResultsWithout(results: Results, t: DocumentationTarget): (r: Results)
    ensures ResultAt(r, Some(t)) == Err(NoSuchTarget)
    ensures forall u :: u != t ==> ResultAt(r, Some(u)) == ResultAt(results, Some(u))
    ensures !HasResult(results, t) ==> r == results
  {
    if HasResult(results, t) then results[t.repositoryID := results[t.repositoryID] - {t.reference}]
    else results
  }

  // Statuses

  predicate HasStatuses(statuses: Statuses, t: DocumentationTarget) {
    t.repositoryID in statuses && t.reference in statuses[t.repositoryID]
  }

  function StatusAt(statuses: Statuses, target: Option<DocumentationTarget>, sequenceID: int64): (r: Result<DocumentationStatus, DataError>)
    ensures target.None? ==> r == Err(NoTargetSpecified)
    ensures target.Some? ==> (r.Ok? <==> HasStatuses(statuses, target.value) && sequenceID in statuses[target.value.repositoryID][target.value.reference])
    ensures target.Some? && r.Err? ==> r.error == NoSuchStatus
    ensures r.Ok? ==> r.value == statuses[target.value.repositoryID][target.value.reference][sequenceID]
  {
    match target
    case None => Err(NoTargetSpecified)
    case Some(t) =>
      if !HasStatuses(statuses, t) then Err(NoSuchStatus)
      else if sequenceID !in statuses[t.repositoryID][t.reference] then Err(NoSuchStatus)
      else Ok(statuses[t.repositoryID][t.reference][sequenceID])
  }

  /** listStatusEntitiesInTarget: a target without statuses lists none. */
  function StatusesIn(statuses: Statuses, target: Option<DocumentationTarget>): (r: Result<map<int64, DocumentationStatus>, DataError>)
    ensures r.Err? <==> target.None?
    ensures r.Err? ==> r.error == NoTargetSpecified
    ensures r.Ok? ==> forall q :: (q in r.value <==> StatusAt(statuses, target, q).Ok?)
    ensures r.Ok? ==> forall q :: q in r.value ==> StatusAt(statuses, target, q) == Ok(r.value[q])
  {
    match target
    case None => Err(NoTargetSpecified)
    case Some(t) => if HasStatuses(statuses, t) then Ok(statuses[t.repositoryID][t.reference]) else Ok(map[])
  }

  /** putStatusEntity: the status is stored under its own sequence ID, missing levels created. */
  function StatusesWith(statuses: Statuses, t: DocumentationTarget, s: DocumentationStatus): (r: Statuses)
    ensures StatusAt(r, Some(t), s.sequenceID) == Ok(s)
    ensures forall u, q :: (u != t || q != s.sequenceID) ==> StatusAt(r, Some(u), q) == StatusAt(statuses, Some(u), q)
  {
    var refs := if t.repositoryID in statuses then statuses[t.repositoryID] else map[];
    var seqs := if t.reference in refs then refs[t.reference] else map[];
    statuses[t.repositoryID := refs[t.reference := seqs[s.sequenceID := s]]]
  }

  function StatusesWithout(statuses: Statuses, t: DocumentationTarget, sequenceID: int64): (r: Statuses)
    ensures StatusAt(r, Some(t), sequenceID) == Err(NoSuchStatus)
    ensures forall u, q :: (u != t || q != sequenceID) ==> StatusAt(r, Some(u), q) == StatusAt(statuses, Some(u), q)
  {
    if HasStatuses(statuses, t) && sequenceID in statuses[t.repositoryID][t.reference] then
      var refs := statuses[t.repositoryID];
      statuses[t.repositoryID := refs[t.reference := refs[t.reference] - {sequenceID}]]
    else statuses
  }

  /** What defaultDeleteTarget leaves: the target's statuses map emptied, every other entry as it was. */
  function StatusesCleared(statuses: Statuses, t: DocumentationTarget): Statuses {
    if HasStatuses(statuses, t) then
      statuses[t.repositoryID := statuses[t.repositoryID][t.reference := map[]]]
    else statuses
  }

  lemma StatusesClearedRemovesTarget(statuses: Statuses, t: DocumentationTarget, u: DocumentationTarget, q: int64)
    ensures StatusAt(StatusesCleared(statuses, t), Some(t), q) == Err(NoSuchStatus)
    ensures u != t ==> StatusAt(StatusesCleared(statuses, t), Some(u), q) == StatusAt(statuses, Some(u), q)
  {
    if u != t && u.repositoryID == t.repositoryID {
      assert u.reference != t.reference;
    }
  }

  // Deleting marks

  predicate HasDeletion(deletions: Deletions, t: DeletingTarget) {
    t.repositoryID in deletions && t.reference in deletions[t.repositoryID]
  }

  function DeletionAt(deletions: Deletions, target: Option<DeletingTarget>): (r: Result<Time, DataError>)
    ensures target.None? ==> r == Err(NoTargetSpecified)
    ensures target.Some? ==> (r.Ok? <==> HasDeletion(deletions, target.value))
    ensures target.Some? && r.Err? ==> r.error == NoSuchTarget
  {
    match target
    case None => Err(NoTargetSpecified)
    case Some(t) => if HasDeletion(deletions, t) then Ok(deletions[t.repositoryID][t.reference]) else Err(NoSuchTarget)
  }

  function DeletionsWith(deletions: Deletions, t: DeletingTarget, requestedAt: Time): (r: Deletions)
    ensures DeletionAt(r, Some(t)) == Ok(requestedAt)
    ensures forall u :: u != t ==> DeletionAt(r, Some(u)) == DeletionAt(deletions, Some(u))
  {
    var refs := if t.repositoryID in deletions then deletions[t.repositoryID] else map[];
    deletions[t.repositoryID := refs[t.reference := requestedAt]]
  }

  function DeletionsWithout(deletions: Deletions, t: DeletingTarget): (r: Deletions)
    ensures DeletionAt(r, Some(t)) == Err(NoSuchTarget)
    ensures forall u :: u != t ==> DeletionAt(r, Some(u)) == DeletionAt(deletions, Some(u))
    ensures !HasDeletion(deletions, t) ==> r == deletions
  {
    if HasDeletion(deletions, t) then deletions[t.repositoryID := deletions[t.repositoryID] - {t.reference}]
    else deletions
  }

  // Entity updates

  /** The stored status after an update: CommitID, TaskID and Status from the request, UpdatedAt now. */
  function Refreshed(stored: DocumentationStatus, given: DocumentationStatus, now: Time): DocumentationStatus {
    stored.(commitID := given.commitID, taskID := given.taskID, status := given.status, updatedAt := now)
  }

  /** The result after defaultPutDocument: a nil map becomes a one-entry map, otherwise the type is overwritten. */
  function WithDocument(result: DocumentationResult, document: Document): DocumentationResult {
    match result.documents
    case None => DocumentationResult(Some(DocumentMapOf([document])))
    case Some(m) => DocumentationResult(Some(m[document.docType := document.commitID]))
  }

  lemma WithDocumentSetsOnlyItsType(result: DocumentationResult, document: Document, other: string)
    ensures WithDocument(result, document).documents.Some?
    ensures document.docType in WithDocument(result, document).documents.value
    ensures WithDocument(result, document).documents.value[document.docType] == document.commitID
    ensures other != document.docType && result.documents.Some? ==>
      var after := WithDocument(result, document).documents.value;
      (other in after <==> other in result.documents.value) && (other in after ==> after[other] == result.documents.value[other])
    ensures result.documents.None? ==> WithDocument(result, document).documents.value.Keys == {document.docType}
  {
    assert [document][..0] == [];
    assert DocumentMapOf([document]) == map[document.docType := document.commitID];
  }

  /** Every status is filed under its own sequence ID, as putStatusEntity files it. */
  ghost predicate KeyedBySequenceID(statuses: Statuses) {
    forall id, ref, q :: id in statuses && ref in statuses[id] && q in statuses[id][ref] ==> statuses[id][ref][q].sequenceID == q
  }

  lemma StatusesWithKeepsKeying(statuses: Statuses, t: DocumentationTarget, s: DocumentationStatus)
    requires KeyedBySequenceID(statuses)
    ensures KeyedBySequenceID(StatusesWith(statuses, t, s))
  {
  }

  /** An update keeps the sequence ID and RequestedAt and takes the rest from the request and the clock. */
  lemma UpdateKeepsRequestedAt(statuses: Statuses, t: DocumentationTarget, given: DocumentationStatus, now: Time)
    requires KeyedBySequenceID(statuses)
    requires StatusAt(statuses, Some(t), given.sequenceID).Ok?
    ensures
      var stored := StatusAt(statuses, Some(t), given.sequenceID).value;
      StatusAt(StatusesWith(statuses, t, Refreshed(stored, given, now)), Some(t), given.sequenceID)
        == Ok(DocumentationStatus(given.sequenceID, given.commitID, given.taskID, given.status, stored.requestedAt, now))
  {
  }

  /** The target's statuses map replaced by inner. */
  function WithTargetStatuses(statuses: Statuses, t: DocumentationTarget, inner: map<int64, DocumentationStatus>): Statuses
    requires HasStatuses(statuses, t)
  {
    statuses[t.repositoryID := statuses[t.repositoryID][t.reference := inner]]
  }

  lemma WithOwnStatuses(statuses: Statuses, t: DocumentationTarget)
    requires HasStatuses(statuses, t)
    ensures WithTargetStatuses(statuses, t, statuses[t.repositoryID][t.reference]) == statuses
  {
    assert statuses[t.repositoryID][t.reference := statuses[t.repositoryID][t.reference]] == statuses[t.repositoryID];
  }

  lemma WithoutOneMore(statuses: Statuses, t: DocumentationTarget, inner: map<int64, DocumentationStatus>, q: int64)
    requires HasStatuses(statuses, t)
    requires q in inner
    ensures StatusesWithout(WithTargetStatuses(statuses, t, inner), t, q) == WithTargetStatuses(statuses, t, inner - {q})
  {
    var s1 := WithTargetStatuses(statuses, t, inner);
    assert s1[t.repositoryID][t.reference] == inner;
    assert s1[t.repositoryID][t.reference := inner - {q}] == statuses[t.repositoryID][t.reference := inner - {q}];
  }

  /** The statuses whose Status equals the query, one per key, in an unspecified order. */
  method FilterByStatus(entities: map<int64, DocumentationStatus>, query: string) returns (statusList: seq<DocumentationStatus>)
    ensures forall s :: s in statusList <==> exists q :: q in entities && entities[q] == s && s.status == query
    ensures |statusList| == |set q | q in entities && entities[q].status == query|
  {
    statusList := [];
    var remaining := entities.Keys;
    ghost var picked: set<int64> := {};
    while remaining != {}
      invariant remaining <= entities.Keys
      invariant forall q :: q in picked <==> q in entities && q !in remaining && entities[q].status == query
      invariant |statusList| == |picked|
      invariant forall s :: s in statusList ==> exists q :: q in picked && entities[q] == s
      invariant forall q :: q in picked ==> entities[q] in statusList
      decreases |remaining|
    {
      var sequenceID :| sequenceID in remaining;
      if entities[sequenceID].status == query {
        statusList := statusList + [entities[sequenceID]];
        picked := picked + {sequenceID};
      }
      remaining := remaining - {sequenceID};
    }
    assert picked == set q | q in entities && entities[q].status == query;
  }

  /** A deep copy of a result: a non-nil map is rebuilt from its list of documents. */
  method CloneResult(result: DocumentationResult) returns (cloned: DocumentationResult)
    ensures cloned == result
  {
    cloned := DocumentationResult(None);
    if result.documents.Some? {
      var documents := ListDocuments(result.documents.value);
      var docMap := MakeDocumentMapFromDocuments(documents);
      ListThenMakeIsIdentity(documents, result.documents.value);
      cloned := DocumentationResult(Some(docMap));
    }
  }

  class DocumentationStorage {
    var results: Results
    var status: Statuses
    var deletingTargets: Deletions

    constructor ()
      ensures results == map[] && status == map[] && deletingTargets == map[]
    {
      results := map[];
      status := map[];
      deletingTargets := map[];
    }

    method Clear()
      modifies this
      ensures results == map[] && status == map[] && deletingTargets == map[]
    {
      results := map[];
      status := map[];
      deletingTargets := map[];
    }

    method GetResultEntity(target: Option<DocumentationTarget>) returns (r: Result<DocumentationResult, DataError>)
      ensures r == ResultAt(results, target)
    {
      if target.None? {
        return Err(NoTargetSpecified);
      }
      var t := target.value;
      if t.repositoryID !in results || t.reference !in results[t.repositoryID] {
        return Err(NoSuchTarget);
      }
      var cloned := CloneResult(results[t.repositoryID][t.reference]);
      return Ok(cloned);
    }

    method ListResultEntitiesInRepository(id: int64) returns (r: Result<map<Reference, DocumentationResult>, DataError>)
      ensures id == 0 ==> r == Err(NoRepositoryIDSpecified)
      ensures id != 0 ==> r.Ok? && r.value == (if id in results then results[id] else map[])
    {
      if id == 0 {
        return Err(NoRepositoryIDSpecified);
      }
      if id !in results {
        return Ok(map[]);
      }
      return Ok(results[id]);
    }

    method PutResultEntity(target: Option<DocumentationTarget>, entity: Option<DocumentationResult>) returns (err: Outcome<DataError>)
      modifies this
      ensures target.None? ==> err == Fail(NoTargetSpecified)
      ensures target.Some? && entity.None? ==> err == Fail(NoResultSpecified)
      ensures err.Fail? ==> results == old(results)
      ensures err.Pass? <==> target.Some? && entity.Some?
      ensures err.Pass? ==> results == ResultsWith(old(results), target.value, entity.value)
      ensures status == old(status) && deletingTargets == old(deletingTargets)
    {
      if target.None? {
        return Fail(NoTargetSpecified);
      }
      if entity.None? {
        return Fail(NoResultSpecified);
      }
      var t := target.value;
      var refs := if t.repositoryID in results then results[t.repositoryID] else map[];
      var cloned := CloneResult(entity.value);
      results := results[t.repositoryID := refs[t.reference := cloned]];
      return Pass;
    }

    method DeleteResultEntity(target: Option<DocumentationTarget>) returns (err: Outcome<DataError>)
      modifies this
      ensures target.None? ==> err == Fail(NoTargetSpecified) && results == old(results)
      ensures target.Some? ==> err == Pass && results == ResultsWithout(old(results), target.value)
      ensures status == old(status) && deletingTargets == old(deletingTargets)
    {
      if target.None? {
        return Fail(NoTargetSpecified);
      }
      var t := target.value;
      if t.repositoryID !in results || t.reference !in results[t.repositoryID] {
        return Pass;
      }
      results := results[t.repositoryID := results[t.repositoryID] - {t.reference}];
      return Pass;
    }

    method GetStatusEntity(target: Option<DocumentationTarget>, sequenceID: int64) returns (r: Result<DocumentationStatus, DataError>)
      ensures r == StatusAt(status, target, sequenceID)
    {
      if target.None? {
        return Err(NoTargetSpecified);
      }
      var t := target.value;
      if t.repositoryID !in status || t.reference !in status[t.repositoryID] {
        return Err(NoSuchStatus);
      }
      if sequenceID !in status[t.repositoryID][t.reference] {
        return Err(NoSuchStatus);
      }
      return Ok(status[t.repositoryID][t.reference][sequenceID]);
    }

    method ListStatusEntitiesInTarget(target: Option<DocumentationTarget>) returns (r: Result<map<int64, DocumentationStatus>, DataError>)
      ensures r == StatusesIn(status, target)
    {
      if target.None? {
        return Err(NoTargetSpecified);
      }
      var t := target.value;
      if t.repositoryID !in status || t.reference !in status[t.repositoryID] {
        return Ok(map[]);
      }
      return Ok(status[t.repositoryID][t.reference]);
    }

    method PutStatusEntity(target: Option<DocumentationTarget>, entity: Option<DocumentationStatus>) returns (err: Outcome<DataError>)
      modifies this
      ensures target.None? ==> err == Fail(NoTargetSpecified)
      ensures target.Some? && entity.None? ==> err == Fail(NoStatusEntitySpecified)
      ensures err.Fail? ==> status == old(status)
      ensures err.Pass? <==> target.Some? && entity.Some?
      ensures err.Pass? ==> status == StatusesWith(old(status), target.value, entity.value)
      ensures results == old(results) && deletingTargets == old(deletingTargets)
    {
      if target.None? {
        return Fail(NoTargetSpecified);
      }
      if entity.None? {
        return Fail(NoStatusEntitySpecified);
      }
      var t := target.value;
      var s := entity.value;
      var refs := if t.repositoryID in status then status[t.repositoryID] else map[];
      var seqs := if t.reference in refs then refs[t.reference] else map[];
      status := status[t.repositoryID := refs[t.reference := seqs[s.sequenceID := s]]];
      return Pass;
    }

    method DeleteStatusEntity(target: Option<DocumentationTarget>, sequenceID: int64) returns (err: Outcome<DataError>)
      modifies this
      ensures target.None? ==> err == Fail(NoTargetSpecified) && status == old(status)
      ensures target.Some? ==> err == Pass && status == StatusesWithout(old(status), target.value, sequenceID)
      ensures results == old(results) && deletingTargets == old(deletingTargets)
    {
      if target.None? {
        return Fail(NoTargetSpecified);
      }
      var t := target.value;
      if t.repositoryID !in status || t.reference !in status[t.repositoryID] {
        return Pass;
      }
      if sequenceID !in status[t.repositoryID][t.reference] {
        return Pass;
      }
      var refs := status[t.repositoryID];
      status := status[t.repositoryID := refs[t.reference := refs[t.reference] - {sequenceID}]];
      return Pass;
    }

    method GetDeletingTargetEntity(target: Option<DeletingTarget>) returns (r: Result<Time, DataError>)
      ensures r == DeletionAt(deletingTargets, target)
    {
      if target.None? {
        return Err(NoTargetSpecified);
      }
      var t := target.value;
      if t.repositoryID !in deletingTargets || t.reference !in deletingTargets[t.repositoryID] {
        return Err(NoSuchTarget);
      }
      return Ok(deletingTargets[t.repositoryID][t.reference]);
    }

    method PutDeletingTargetEntity(target: Option<DeletingTarget>, requestedAt: Option<Time>) returns (err: Outcome<DataError>)
      modifies this
      ensures target.None? ==> err == Fail(NoTargetSpecified)
      ensures target.Some? && requestedAt.None? ==> err == Fail(NoDeletingEntitySpecified)
      ensures err.Fail? ==> deletingTargets == old(deletingTargets)
      ensures err.Pass? <==> target.Some? && requestedAt.Some?
      ensures err.Pass? ==> deletingTargets == DeletionsWith(old(deletingTargets), target.value, requestedAt.value)
      ensures results == old(results) && status == old(status)
    {
      if target.None? {
        return Fail(NoTargetSpecified);
      }
      if requestedAt.None? {
        return Fail(NoDeletingEntitySpecified);
      }
      var t := target.value;
      var refs := if t.repositoryID in deletingTargets then deletingTargets[t.repositoryID] else map[];
      deletingTargets := deletingTargets[t.repositoryID := refs[t.reference := requestedAt.value]];
      return Pass;
    }

    method DeleteDeletingTargetEntity(target: Option<DeletingTarget>) returns (err: Outcome<DataError>)
      modifies this
      ensures target.None? ==> err == Fail(NoTargetSpecified) && deletingTargets == old(deletingTargets)
      ensures target.Some? ==> err == Pass && deletingTargets == DeletionsWithout(old(deletingTargets), target.value)
      ensures results == old(results) && status == old(status)
    {
      if target.None? {
        return Fail(NoTargetSpecified);
      }
      var t := target.value;
      if t.repositoryID !in deletingTargets || t.reference !in deletingTargets[t.repositoryID] {
        return Pass;
      }
      deletingTargets := deletingTargets[t.repositoryID := deletingTargets[t.repositoryID] - {t.reference}];
      return Pass;
    }
  }

  class DocumentationStore {
    const storage: DocumentationStorage

    constructor (storage: DocumentationStorage)
      ensures this.storage == storage
    {
      this.storage := storage;
    }

    method CreateTarget(target: Option<DocumentationTarget>) returns (err: Outcome<DataError>)
      modifies storage
      ensures target.None? ==> err == Fail(NoTargetSpecified)
      ensures target.Some? && HasResult(old(storage.results), target.value) ==> err == Fail(TargetAlreadyExists)
      ensures err.Fail? ==> storage.results == old(storage.results)
      ensures err.Pass? <==> target.Some? && !HasResult(old(storage.results), target.value)
      ensures err.Pass? ==> storage.results == ResultsWith(old(storage.results), target.value, DocumentationResult(None))
      ensures storage.status == old(storage.status) && storage.deletingTargets == old(storage.deletingTargets)
    {
      var found := storage.GetResultEntity(target);
      if found.Ok? {
        return Fail(TargetAlreadyExists);
      }
      if found.error != NoSuchTarget {
        return Fail(found.error);
      }
      err := storage.PutResultEntity(target, Some(DocumentationResult(None)));
    }

    /** Removes the result and every status of the target; an absent target is left as it is. */
    method DeleteTarget(target: Option<DocumentationTarget>) returns (err: Outcome<DataError>)
      modifies storage
      ensures target.None? ==> err == Fail(NoTargetSpecified) && storage.results == old(storage.results) && storage.status == old(storage.status)
      ensures target.Some? ==> err == Pass
      ensures target.Some? ==> storage.results == ResultsWithout(old(storage.results), target.value)
      ensures target.Some? ==> storage.status == StatusesCleared(old(storage.status), target.value)
      ensures storage.deletingTargets == old(storage.deletingTargets)
    {
      err := storage.DeleteResultEntity(target);
      if err.Fail? {
        return;
      }
      var t := target.value;
      var listed := storage.ListStatusEntitiesInTarget(target);
      var entities := listed.value;
      ghost var before := storage.status;
      ghost var left := entities;
      var remaining := entities.Keys;
      if HasStatuses(before, t) {
        WithOwnStatuses(before, t);
      }
      while remaining != {}
        invariant remaining == left.Keys
        invariant storage.results == ResultsWithout(old(storage.results), t)
        invariant storage.deletingTargets == old(storage.deletingTargets)
        invariant err == Pass
        invariant !HasStatuses(before, t) ==> remaining == {} && storage.status == before
        invariant HasStatuses(before, t) ==> storage.status == WithTargetStatuses(before, t, left)
        decreases |remaining|
      {
        var sequenceID :| sequenceID in remaining;
        err := storage.DeleteStatusEntity(target, sequenceID);
        WithoutOneMore(before, t, left, sequenceID);
        left := left - {sequenceID};
        remaining := remaining - {sequenceID};
      }
      assert left == map[];
    }

    method ExistsTarget(target: Option<DocumentationTarget>) returns (r: Result<bool, DataError>)
      ensures target.None? ==> r == Err(NoTargetSpecified)
      ensures target.Some? ==> r == Ok(HasResult(storage.results, target.value))
    {
      var found := storage.GetResultEntity(target);
      if found.Ok? {
        return Ok(true);
      }
      if found.error == NoSuchTarget {
        return Ok(false);
      }
      return Err(found.error);
    }

    method CountTargetsInRepository(id: int64) returns (r: Result<int, DataError>)
      ensures id == 0 ==> r == Err(NoRepositoryIDSpecified)
      ensures id != 0 ==> r == Ok(if id in storage.results then |storage.results[id]| else 0)
    {
      var entities := storage.ListResultEntitiesInRepository(id);
      if entities.Err? {
        return Err(entities.error);
      }
      return Ok(|entities.value|);
    }

    method MarkDeletingTarget(target: Option<DeletingTarget>, now: Time) returns (err: Outcome<DataError>)
      modifies storage
      ensures target.None? ==> err == Fail(NoTargetSpecified) && storage.deletingTargets == old(storage.deletingTargets)
      ensures target.Some? ==> err == Pass && storage.deletingTargets == DeletionsWith(old(storage.deletingTargets), target.value, now)
      ensures storage.results == old(storage.results) && storage.status == old(storage.status)
    {
      err := storage.PutDeletingTargetEntity(target, Some(now));
    }

    method UnmarkDeletingTarget(target: Option<DeletingTarget>) returns (err: Outcome<DataError>)
      modifies storage
      ensures target.None? ==> err == Fail(NoTargetSpecified) && storage.deletingTargets == old(storage.deletingTargets)
      ensures target.Some? ==> err == Pass && storage.deletingTargets == DeletionsWithout(old(storage.deletingTargets), target.value)
      ensures storage.results == old(storage.results) && storage.status == old(storage.status)
    {
      err := storage.DeleteDeletingTargetEntity(target);
    }

    method IsDeletingTarget(target: Option<DeletingTarget>) returns (r: Result<bool, DataError>)
      ensures target.None? ==> r == Err(NoTargetSpecified)
      ensures target.Some? ==> r == Ok(HasDeletion(storage.deletingTargets, target.value))
    {
      var found := storage.GetDeletingTargetEntity(target);
      if found.Err? && found.error == NoSuchTarget {
        return Ok(false);
      }
      if found.Err? {
        return Err(found.error);
      }
      return Ok(true);
    }

    method GetResult(target: Option<DocumentationTarget>) returns (r: Result<DocumentationResult, DataError>)
      ensures r == ResultAt(storage.results, target)
    {
      r := storage.GetResultEntity(target);
    }

    /**
     * The results of the listed targets that exist, keyed by position in the list (the
     * source keys them by pointer). A nil target fails the whole batch.
     */
    method GetResultMulti(targets: seq<Option<DocumentationTarget>>) returns (r: Result<map<nat, DocumentationResult>, DataError>)
      ensures r.Err? <==> exists i :: 0 <= i < |targets| && targets[i].None?
      ensures r.Err? ==> r.error == NoTargetSpecified
      ensures r.Ok? ==> forall i: nat :: i in r.value <==> i < |targets| && HasResult(storage.results, targets[i].value)
      ensures r.Ok? ==> forall i :: i in r.value ==> ResultAt(storage.results, targets[i]) == Ok(r.value[i])
    {
      var results: map<nat, DocumentationResult> := map[];
      var i := 0;
      while i < |targets|
        invariant 0 <= i <= |targets|
        invariant forall j :: 0 <= j < i ==> targets[j].Some?
        invariant forall j: nat :: j in results <==> j < i && HasResult(storage.results, targets[j].value)
        invariant forall j :: j in results ==> ResultAt(storage.results, targets[j]) == Ok(results[j])
      {
        var found := storage.GetResultEntity(targets[i]);
        if found.Ok? {
          results := results[i := found.value];
        } else if found.error != NoSuchTarget {
          return Err(found.error);
        }
        i := i + 1;
      }
      return Ok(results);
    }

    /** Sets Documents[type] to the document's commit ID, leaving every other type as it was. */
    method PutDocument(target: Option<DocumentationTarget>, document: Option<Document>) returns (err: Outcome<DataError>)
      modifies storage
      ensures ResultAt(old(storage.results), target).Err? ==> err == Fail(ResultAt(old(storage.results), target).error)
      ensures ResultAt(old(storage.results), target).Ok? && document.None? ==> err == Fail(NoDocumentSpecified)
      ensures err.Fail? ==> storage.results == old(storage.results)
      ensures err.Pass? <==> ResultAt(old(storage.results), target).Ok? && document.Some?
      ensures err.Pass? ==>
        storage.results == ResultsWith(old(storage.results), target.value, WithDocument(ResultAt(old(storage.results), target).value, document.value))
      ensures storage.status == old(storage.status) && storage.deletingTargets == old(storage.deletingTargets)
    {
      var found := storage.GetResultEntity(target);
      if found.Err? {
        return Fail(found.error);
      }
      if document.None? {
        return Fail(NoDocumentSpecified);
      }
      var d := document.value;
      var entity := found.value;
      if entity.documents.None? {
        var docMap := MakeDocumentMapFromDocuments([d]);
        entity := DocumentationResult(Some(docMap));
      } else {
        entity := DocumentationResult(Some(entity.documents.value[d.docType := d.commitID]));
      }
      err := storage.PutResultEntity(target, Some(entity));
    }

    /** Stores a new status with RequestedAt and UpdatedAt both set to now; a taken sequence ID is refused. */
    method CreateStatus(target: Option<DocumentationTarget>, status: Option<DocumentationStatus>, now: Time) returns (err: Outcome<DataError>)
      modifies storage
      ensures status.None? ==> err == Fail(NoStatusSpecified)
      ensures status.Some? && target.None? ==> err == Fail(NoTargetSpecified)
      ensures status.Some? && StatusAt(old(storage.status), target, status.value.sequenceID).Ok? ==> err == Fail(StatusAlreadyExists)
      ensures err.Fail? ==> storage.status == old(storage.status)
      ensures err.Pass? <==> status.Some? && target.Some? && StatusAt(old(storage.status), target, status.value.sequenceID).Err?
      ensures err.Pass? ==>
        storage.status == StatusesWith(old(storage.status), target.value, status.value.(requestedAt := now, updatedAt := now))
      ensures storage.results == old(storage.results) && storage.deletingTargets == old(storage.deletingTargets)
    {
      if status.None? {
        return Fail(NoStatusSpecified);
      }
      var found := storage.GetStatusEntity(target, status.value.sequenceID);
      if found.Ok? {
        return Fail(StatusAlreadyExists);
      }
      if found.error != NoSuchStatus {
        return Fail(found.error);
      }
      var entity := status.value.(requestedAt := now);
      entity := entity.(updatedAt := entity.requestedAt);
      err := storage.PutStatusEntity(target, Some(entity));
    }

    method GetStatus(target: Option<DocumentationTarget>, sequenceID: int64) returns (r: Result<DocumentationStatus, DataError>)
      ensures r == StatusAt(storage.status, target, sequenceID)
    {
      r := storage.GetStatusEntity(target, sequenceID);
    }

    /** Overwrites CommitID, TaskID and Status and refreshes UpdatedAt; an absent status is refused. */
    method UpdateStatus(target: Option<DocumentationTarget>, status: Option<DocumentationStatus>, now: Time) returns (err: Outcome<DataError>)
      modifies storage
      ensures status.None? ==> err == Fail(NoStatusSpecified)
      ensures status.Some? && StatusAt(old(storage.status), target, status.value.sequenceID).Err? ==>
        err == Fail(StatusAt(old(storage.status), target, status.value.sequenceID).error)
      ensures err.Fail? ==> storage.status == old(storage.status)
      ensures err.Pass? <==> status.Some? && StatusAt(old(storage.status), target, status.value.sequenceID).Ok?
      ensures err.Pass? ==>
        storage.status == StatusesWith(old(storage.status), target.value,
          Refreshed(StatusAt(old(storage.status), target, status.value.sequenceID).value, status.value, now))
      ensures storage.results == old(storage.results) && storage.deletingTargets == old(storage.deletingTargets)
    {
      if status.None? {
        return Fail(NoStatusSpecified);
      }
      var found := storage.GetStatusEntity(target, status.value.sequenceID);
      if found.Err? {
        return Fail(found.error);
      }
      err := storage.PutStatusEntity(target, Some(Refreshed(found.value, status.value, now)));
    }

    /** UpdateStatus, performed only when the stored Status equals prevStatus. */
    method UpdateStatusWithCondition(target: Option<DocumentationTarget>, status: Option<DocumentationStatus>, prevStatus: string, now: Time)
      returns (err: Outcome<DataError>)
      modifies storage
      ensures status.None? ==> err == Fail(NoStatusSpecified)
      ensures status.Some? && StatusAt(old(storage.status), target, status.value.sequenceID).Err? ==>
        err == Fail(StatusAt(old(storage.status), target, status.value.sequenceID).error)
      ensures (status.Some? && StatusAt(old(storage.status), target, status.value.sequenceID).Ok?
        && StatusAt(old(storage.status), target, status.value.sequenceID).value.status != prevStatus) ==>
        err == Fail(UnsatisfiedStatusCondition)
      ensures err.Fail? ==> storage.status == old(storage.status)
      ensures err.Pass? <==> (status.Some? && StatusAt(old(storage.status), target, status.value.sequenceID).Ok?
        && StatusAt(old(storage.status), target, status.value.sequenceID).value.status == prevStatus)
      ensures err.Pass? ==>
        storage.status == StatusesWith(old(storage.status), target.value,
          Refreshed(StatusAt(old(storage.status), target, status.value.sequenceID).value, status.value, now))
      ensures storage.results == old(storage.results) && storage.deletingTargets == old(storage.deletingTargets)
    {
      if status.None? {
        return Fail(NoStatusSpecified);
      }
      var found := storage.GetStatusEntity(target, status.value.sequenceID);
      if found.Err? {
        return Fail(found.error);
      }
      if found.value.status != prevStatus {
        return Fail(UnsatisfiedStatusCondition);
      }
      err := storage.PutStatusEntity(target, Some(Refreshed(found.value, status.value, now)));
    }

    /** The target's statuses whose Status equals the query, one per sequence ID, in an unspecified order. */
    method QueryStatus(target: Option<DocumentationTarget>, query: string) returns (r: Result<seq<DocumentationStatus>, DataError>)
      ensures target.None? ==> r == Err(NoTargetSpecified)
      ensures target.Some? ==> r.Ok?
      ensures r.Ok? ==> forall s :: s in r.value <==>
        exists q :: StatusAt(storage.status, target, q) == Ok(s) && s.status == query
      ensures r.Ok? ==> |r.value| == |set q | q in StatusesIn(storage.status, target).value && StatusesIn(storage.status, target).value[q].status == query|
    {
      var listed := storage.ListStatusEntitiesInTarget(target);
      if listed.Err? {
        return Err(listed.error);
      }
      var statusList := FilterByStatus(listed.value, query);
      r := Ok(statusList);
      forall s | s in statusList
        ensures exists q :: StatusAt(storage.status, target, q) == Ok(s) && s.status == query
      {
        var q :| q in listed.value && listed.value[q] == s && s.status == query;
        assert StatusAt(storage.status, target, q) == Ok(s);
      }
      forall s | exists q :: StatusAt(storage.status, target, q) == Ok(s) && s.status == query
        ensures s in statusList
      {
        var q :| StatusAt(storage.status, target, q) == Ok(s) && s.status == query;
        assert q in listed.value && listed.value[q] == s;
      }
    }
  }
}
