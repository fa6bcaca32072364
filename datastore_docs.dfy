/**
 * The Cloud Datastore documentation store, over an abstract datastore: entity keys are
 * ancestor paths of (kind, name, integer ID) elements, and the datastore is one map per
 * entity kind from key to entity, with a set of keys whose Get fails for a reason other
 * than a missing entity.
 */
module DatastoreDocuments {
  import opened Wrappers
  import opened Identity
  import opened Documents

  const KindDocumentation: string := "Documentation"
  const KindDocumentationResult: string := "DocumentationResult"
  const KindDocumentationStatus: string := "DocumentationStatus"
  const KindDeletingTarget: string := "DeletingTarget"

  datatype KeyElem = KeyElem(kind: string, name: string, intID: int64)

  /** A datastore key: its ancestors first, the entity's own element last. */
  type Key = seq<KeyElem>

  const NoReferenceSpecified: DataError := OtherError("no repository reference specified")
  const NoTargetSpecified: DataError := OtherError("no documentation target specified")
  const NoStatusSpecified: DataError := OtherError("no documentation status specified")
  const NoSequenceIDSpecified: DataError := OtherError("no sequence id specified")
  const NoCommitIDSpecified: DataError := OtherError("no commit id specified")
  const NoDeletingTargetSpecified: DataError := OtherError("no deleting target specified")
  const NoResultSpecified: DataError := OtherError("no documentation result specified")
  const NoDocumentSpecified: DataError := OtherError("no document specified")
  /** A datastore Get that failed for a reason other than a missing entity. */
  const GetFailure: DataError := OtherError("datastore: get failed")

  // Keys

  /** The single root element every key of the store descends from. */
  function RootKey(): (r: Key)
    ensures |r| == 1 && r[0].kind == KindDocumentation && r[0].name == "root" && r[0].intID == 0
  {
    [KeyElem(KindDocumentation, "root", 0)]
  }

  /** The root's child numbered by the repository ID. */
  function RepositoryIDKey(id: int64): (r: Key)
    ensures |r| == 2 && r[..1] == RootKey()
    ensures r[1].kind == KindDocumentation && r[1].name == "" && r[1].intID == id
  {
    RootKey() + [KeyElem(KindDocumentation, "", id)]
  }

  function ReferenceTypeKey(parent: Key, ref: Option<Reference>): (r: Result<Key, DataError>)
    ensures r.Err? <==> ref.None?
    ensures r.Err? ==> r.error == NoReferenceSpecified
  {
    match ref
    case None => Err(NoReferenceSpecified)
    case Some(x) => Ok(parent + [KeyElem(KindDocumentation, x.refType, 0)])
  }

  /** root / repository ID / reference type / (kind, reference name). */
  function DocumentationTargetKey(target: Option<DocumentationTarget>, kind: string): (r: Result<Key, DataError>)
    ensures r.Err? <==> target.None?
    ensures r.Err? ==> r.error == NoTargetSpecified
    ensures r.Ok? ==> |r.value| == 4 && r.value[3] == KeyElem(kind, target.value.reference.name, 0)
  {
    match target
    case None => Err(NoTargetSpecified)
    case Some(t) =>
      var parent := ReferenceTypeKey(RepositoryIDKey(t.repositoryID), Some(t.reference));
      Ok(parent.value + [KeyElem(kind, t.reference.name, 0)])
  }

  /** The target's DocumentationStatus key with the sequence ID appended; checked in the order target, status, sequence ID. */
  function DocumentationStatusKey(target: Option<DocumentationTarget>, status: Option<DocumentationStatus>): (r: Result<Key, DataError>)
    ensures r.Err? <==> target.None? || status.None? || status.value.sequenceID == 0
    ensures r.Ok? ==> |r.value| == 5 && r.value[4] == KeyElem(KindDocumentationStatus, "", status.value.sequenceID)
  {
    var parent := DocumentationTargetKey(target, KindDocumentationStatus);
    if parent.Err? then Err(parent.error)
    else if status.None? then Err(NoStatusSpecified)
    else if status.value.sequenceID == 0 then Err(NoSequenceIDSpecified)
    else Ok(parent.value + [KeyElem(KindDocumentationStatus, "", status.value.sequenceID)])
  }

  function CommitIDKey(target: Option<DocumentationTarget>, kind: string, commitID: string): (r: Result<Key, DataError>)
    ensures r.Err? <==> target.None? || commitID == ""
    ensures r.Ok? ==> |r.value| == 5 && r.value[..4] == DocumentationTargetKey(target, kind).value && r.value[4] == KeyElem(kind, commitID, 0)
  {
    var parent := DocumentationTargetKey(target, kind);
    if parent.Err? then Err(parent.error)
    else if commitID == "" then Err(NoCommitIDSpecified)
    else Ok(parent.value + [KeyElem(kind, commitID, 0)])
  }

  function DeletingTargetKey(target: Option<DeletingTarget>): (r: Result<Key, DataError>)
    ensures r.Err? <==> target.None?
  {
    match target
    case None => Err(NoDeletingTargetSpecified)
    case Some(t) =>
      var parent := ReferenceTypeKey(RepositoryIDKey(t.repositoryID), Some(t.reference)).value;
      Ok(parent + [KeyElem(KindDeletingTarget, t.reference.name, 0)])
  }

  /** The target key is the path root, repository ID, reference type, then (kind, reference name). */
  lemma TargetKeyPath(t: DocumentationTarget, kind: string)
    ensures DocumentationTargetKey(Some(t), kind) == Ok([
      KeyElem(KindDocumentation, "root", 0),
      KeyElem(KindDocumentation, "", t.repositoryID),
      KeyElem(KindDocumentation, t.reference.refType, 0),
      KeyElem(kind, t.reference.name, 0)])
  {
    var k := DocumentationTargetKey(Some(t), kind).value;
    var path := [
      KeyElem(KindDocumentation, "root", 0),
      KeyElem(KindDocumentation, "", t.repositoryID),
      KeyElem(KindDocumentation, t.reference.refType, 0),
      KeyElem(kind, t.reference.name, 0)];
    assert k == RootKey() + [path[1]] + [path[2]] + [path[3]];
    assert k == path;
  }

  /** Two targets share a key of one kind only if they are the same target. */
  lemma TargetKeyInjective(a: DocumentationTarget, b: DocumentationTarget, kind: string)
    requires DocumentationTargetKey(Some(a), kind) == DocumentationTargetKey(Some(b), kind)
    ensures a == b
  {
    TargetKeyPath(a, kind);
    TargetKeyPath(b, kind);
    var ka := DocumentationTargetKey(Some(a), kind).value;
    assert ka[1].intID == a.repositoryID && ka[2].name == a.reference.refType && ka[3].name == a.reference.name;
  }

  /** A status key is a child of its target's DocumentationStatus key, so an ancestor query on that key finds it. */
  lemma StatusKeyIsChildOfTarget(t: DocumentationTarget, s: DocumentationStatus)
    requires s.sequenceID != 0
    ensures DocumentationStatusKey(Some(t), Some(s)).Ok?
    ensures var k := DocumentationStatusKey(Some(t), Some(s)).value;
      k[..|k| - 1] == DocumentationTargetKey(Some(t), KindDocumentationStatus).value
      && k[|k| - 1] == KeyElem(KindDocumentationStatus, "", s.sequenceID)
  {
    var parent := DocumentationTargetKey(Some(t), KindDocumentationStatus).value;
    var k := parent + [KeyElem(KindDocumentationStatus, "", s.sequenceID)];
    assert k[..|k| - 1] == parent;
  }

  /** The status key fails on a nil target, then a nil status, then a zero sequence ID, and on nothing else. */
  lemma StatusKeyErrors(target: Option<DocumentationTarget>, status: Option<DocumentationStatus>)
    ensures target.None? ==> DocumentationStatusKey(target, status) == Err(NoTargetSpecified)
    ensures target.Some? && status.None? ==> DocumentationStatusKey(target, status) == Err(NoStatusSpecified)
    ensures target.Some? && status.Some? && status.value.sequenceID == 0 ==> DocumentationStatusKey(target, status) == Err(NoSequenceIDSpecified)
    ensures DocumentationStatusKey(target, status).Ok? <==> target.Some? && status.Some? && status.value.sequenceID != 0
  {
  }

  lemma StatusKeyInjective(t: DocumentationTarget, u: DocumentationTarget, s: DocumentationStatus, v: DocumentationStatus)
    requires DocumentationStatusKey(Some(t), Some(s)).Ok?
    requires DocumentationStatusKey(Some(t), Some(s)) == DocumentationStatusKey(Some(u), Some(v))
    ensures t == u && s.sequenceID == v.sequenceID
  {
    StatusKeyIsChildOfTarget(t, s);
    StatusKeyIsChildOfTarget(u, v);
    TargetKeyInjective(t, u, KindDocumentationStatus);
  }

  /** The commit ID key fails on a nil target, then an empty commit ID. */
  lemma CommitIDKeyErrors(target: Option<DocumentationTarget>, kind: string, commitID: string)
    ensures target.None? ==> CommitIDKey(target, kind, commitID) == Err(NoTargetSpecified)
    ensures target.Some? && commitID == "" ==> CommitIDKey(target, kind, commitID) == Err(NoCommitIDSpecified)
    ensures target.Some? && commitID != "" ==>
      CommitIDKey(target, kind, commitID) == Ok(DocumentationTargetKey(target, kind).value + [KeyElem(kind, commitID, 0)])
  {
  }

  /** A result key, a status ancestor key and a deleting-target key of the same target never coincide. */
  lemma KindsSeparateKeys(t: DocumentationTarget)
    ensures DocumentationTargetKey(Some(t), KindDocumentationResult) != DocumentationTargetKey(Some(t), KindDocumentationStatus)
    ensures DocumentationTargetKey(Some(t), KindDocumentationResult).value
      != DeletingTargetKey(Some(DeletingTarget(t.repositoryID, t.reference))).value
  {
    var r := DocumentationTargetKey(Some(t), KindDocumentationResult).value;
    var s := DocumentationTargetKey(Some(t), KindDocumentationStatus).value;
    assert r[3].kind != s[3].kind;
    var d := DeletingTargetKey(Some(DeletingTarget(t.repositoryID, t.reference))).value;
    assert d[|d| - 1].kind == KindDeletingTarget;
    assert r[3].kind != d[|d| - 1].kind;
  }

  // Entities

  datatype StatusEntity = StatusEntity(commitID: string, taskID: string, status: string, requestedAt: Time, updatedAt: Time)

  /** The stored status as a DocumentationStatus; its sequence ID comes from the key. */
  function ToDocumentationStatus(entity: StatusEntity, sequenceID: int64): (r: DocumentationStatus)
    ensures r.sequenceID == sequenceID
    ensures ToStatusEntity(r) == entity
  {
    DocumentationStatus(sequenceID, entity.commitID, entity.taskID, entity.status, entity.requestedAt, entity.updatedAt)
  }

  function ToStatusEntity(s: DocumentationStatus): StatusEntity {
    StatusEntity(s.commitID, s.taskID, s.status, s.requestedAt, s.updatedAt)
  }

  /** The result entity's document list as newDocumentationResultEntity builds it; a nil map lists nothing. */
  method NewDocumentationResultEntity(result: Option<DocumentationResult>) returns (r: Result<seq<Document>, DataError>)
    ensures result.None? ==> r == Err(NoResultSpecified)
    ensures result.Some? ==> r.Ok?
    ensures result.Some? && result.value.documents.None? ==> r.value == []
    ensures result.Some? && result.value.documents.Some? ==> ListsDocuments(r.value, result.value.documents.value) && DistinctTypes(r.value)
  {
    if result.None? {
      return Err(NoResultSpecified);
    }
    if result.value.documents.None? {
      return Ok([]);
    }
    var documents := ListDocuments(result.value.documents.value);
    return Ok(documents);
  }

  method ToDocumentationResult(documents: seq<Document>) returns (r: DocumentationResult)
    ensures r == DocumentationResult(Some(DocumentMapOf(documents)))
  {
    var docMap := MakeDocumentMapFromDocuments(documents);
    r := DocumentationResult(Some(docMap));
  }

  /** Converting a result to an entity and back gives the result, except that a nil map comes back empty. */
  lemma ResultEntityRoundTrip(result: DocumentationResult, documents: seq<Document>)
    requires result.documents.None? ==> documents == []
    requires result.documents.Some? ==> ListsDocuments(documents, result.documents.value)
    ensures DocumentationResult(Some(DocumentMapOf(documents))) ==
      if result.documents.Some? then result else DocumentationResult(Some(map[]))
  {
    if result.documents.Some? {
      ListThenMakeIsIdentity(documents, result.documents.value);
    }
  }

  predicate DistinctTypes(documents: seq<Document>) {
    forall i, j :: 0 <= i < j < |documents| ==> documents[i].docType != documents[j].docType
  }

  /** The first index holding a document of the type, if any. */
  function FirstIndexOfType(documents: seq<Document>, docType: string): (r: Option<nat>)
    ensures r.Some? ==> r.value < |documents| && documents[r.value].docType == docType
    ensures r.Some? ==> forall j :: 0 <= j < r.value ==> documents[j].docType != docType
    ensures r.None? ==> forall j :: 0 <= j < |documents| ==> documents[j].docType != docType
    decreases |documents|
  {
    if documents == [] then None
    else if documents[0].docType == docType then Some(0)
    else
      var rest := FirstIndexOfType(documents[1..], docType);
      if rest.Some? then Some(rest.value + 1) else None
  }

  /** putDocument: the first entry of the type is replaced in place, or the document is appended. */
  function DocumentsPut(documents: seq<Document>, document: Document): (r: seq<Document>)
    ensures |documents| <= |r| <= |documents| + 1
    ensures forall j :: 0 <= j < |r| ==> r[j] == document || r[j] in documents
  {
    match FirstIndexOfType(documents, document.docType)
    case Some(i) => documents[i := document]
    case None => documents + [document]
  }

  lemma DocumentsPutShape(documents: seq<Document>, document: Document)
    ensures FirstIndexOfType(documents, document.docType).Some? ==>
      |DocumentsPut(documents, document)| == |documents|
      && (forall j :: 0 <= j < |documents| && j != FirstIndexOfType(documents, document.docType).value ==> DocumentsPut(documents, document)[j] == documents[j])
    ensures FirstIndexOfType(documents, document.docType).None? ==> DocumentsPut(documents, document) == documents + [document]
    ensures document in DocumentsPut(documents, document)
  {
    var after := DocumentsPut(documents, document);
    match FirstIndexOfType(documents, document.docType)
    case Some(i) => assert after[i] == document;
    case None => assert after[|documents|] == document;
  }

  /** On a list without repeated types, putDocument keeps it so and acts on its map as a single update. */
  lemma DocumentsPutUpdatesMap(documents: seq<Document>, document: Document)
    requires DistinctTypes(documents)
    ensures DistinctTypes(DocumentsPut(documents, document))
    ensures DocumentMapOf(DocumentsPut(documents, document)) == DocumentMapOf(documents)[document.docType := document.commitID]
  {
    var m := DocumentMapOf(documents);
    DistinctListsItsMap(documents);
    var after := DocumentsPut(documents, document);
    var target := m[document.docType := document.commitID];
    forall i | 0 <= i < |after| ensures after[i].docType in target && target[after[i].docType] == after[i].commitID {
      if after[i] != document {
        assert after[i] == documents[i];
      }
    }
    DocumentsPutShape(documents, document);
    forall k | k in target ensures Document(k, target[k]) in after {
      if k != document.docType {
        assert k in m;
        var i :| 0 <= i < |documents| && documents[i] == Document(k, m[k]);
        assert after[i] == documents[i];
      }
    }
    ListThenMakeIsIdentity(after, target);
  }

  /** A list without repeated types lists its own map. */
  lemma DistinctListsItsMap(documents: seq<Document>)
    requires DistinctTypes(documents)
    ensures ListsDocuments(documents, DocumentMapOf(documents))
  {
    var m := DocumentMapOf(documents);
    forall i | 0 <= i < |documents| ensures documents[i].docType in m && m[documents[i].docType] == documents[i].commitID {
      DocumentMapLastWins(documents, i);
    }
    DocumentMapKeys(documents);
    forall k | k in m ensures Document(k, m[k]) in documents {
      var i :| 0 <= i < |documents| && documents[i].docType == k;
      DocumentMapLastWins(documents, i);
    }
  }

  /** The result entity whose document list putDocument updates by index or by append. */
  class DocumentationResultEntity {
    var documents: seq<Document>

    constructor (documents: seq<Document>)
      ensures this.documents == documents
    {
      this.documents := documents;
    }

    method PutDocument(document: Option<Document>) returns (err: Outcome<DataError>)
      modifies this
      ensures document.None? ==> err == Fail(NoDocumentSpecified) && documents == old(documents)
      ensures document.Some? ==> err == Pass && documents == DocumentsPut(old(documents), document.value)
    {
      if document.None? {
        return Fail(NoDocumentSpecified);
      }
      var d := document.value;
      var i := 0;
      while i < |documents|
        invariant 0 <= i <= |documents|
        invariant documents == old(documents)
        invariant forall j :: 0 <= j < i ==> documents[j].docType != d.docType
      {
        if documents[i].docType == d.docType {
          FirstIndexIs(documents, d.docType, i);
          documents := documents[i := d];
          return Pass;
        }
        i := i + 1;
      }
      documents := documents + [d];
      return Pass;
    }
  }

  lemma FirstIndexIs(documents: seq<Document>, docType: string, i: nat)
    requires i < |documents| && documents[i].docType == docType
    requires forall j :: 0 <= j < i ==> documents[j].docType != docType
    ensures FirstIndexOfType(documents, docType) == Some(i)
  {
  }

  // Datastore access

  datatype GetError = NoSuchEntity | GetFailed

  function Fetch<V>(entities: map<Key, V>, faults: set<Key>, key: Key): (r: Result<V, GetError>)
    ensures r.Ok? <==> key !in faults && key in entities
    ensures r.Ok? ==> r.value == entities[key]
    ensures r == Err(NoSuchEntity) <==> key !in faults && key !in entities
  {
    if key in faults then Err(GetFailed)
    else if key in entities then Ok(entities[key])
    else Err(NoSuchEntity)
  }

  /** The marks after MarkDeletingTarget as written: a failed Get is reported as success and nothing is written. */
  function MarkAsWritten(deleting: map<Key, Time>, faults: set<Key>, key: Key, now: Time): (r: (Outcome<DataError>, map<Key, Time>))
    ensures r.0 == Pass
    ensures key in faults ==> r.1 == deleting
    ensures key !in faults ==> r == Mark(deleting, faults, key, now)
  {
    match Fetch(deleting, faults, key)
    case Ok(_) => (Pass, deleting)
    case Err(NoSuchEntity) => (Pass, deleting[key := now])
    case Err(GetFailed) => (Pass, deleting)
  }

  /** The marks after MarkDeletingTarget as intended: a failed Get is reported. */
  function Mark(deleting: map<Key, Time>, faults: set<Key>, key: Key, now: Time): (r: (Outcome<DataError>, map<Key, Time>))
    ensures r.0.Fail? <==> key in faults
    ensures r.0.Pass? ==> key in r.1
    ensures r.0.Pass? && key in deleting ==> r.1 == deleting
    ensures r.0.Fail? ==> r.1 == deleting && r.0.error == GetFailure
  {
    match Fetch(deleting, faults, key)
    case Ok(_) => (Pass, deleting)
    case Err(NoSuchEntity) => (Pass, deleting[key := now])
    case Err(GetFailed) => (Fail(GetFailure), deleting)
  }

  /** As written, a mark whose Get fails is reported done though no mark exists (and IsDeletingTarget then fails). */
  lemma MarkAsWrittenLosesMark(deleting: map<Key, Time>, key: Key, now: Time)
    requires key !in deleting
    ensures MarkAsWritten(deleting, {key}, key, now).0 == Pass
    ensures key !in MarkAsWritten(deleting, {key}, key, now).1
    ensures Mark(deleting, {key}, key, now).0 == Fail(GetFailure)
  {
  }

  /** Re-marking an already marked target keeps the first RequestedAt. */
  lemma MarkKeepsFirstRequest(deleting: map<Key, Time>, faults: set<Key>, key: Key, first: Time, later: Time)
    requires key !in faults && key !in deleting
    ensures var once := Mark(deleting, faults, key, first).1;
      Mark(once, faults, key, later).1 == once && once[key] == first
  {
  }

  /** The entity after updateStatus: CommitID, TaskID and Status from the request, UpdatedAt now, RequestedAt kept. */
  function Refreshed(stored: StatusEntity, given: DocumentationStatus, now: Time): (r: StatusEntity)
    ensures r.requestedAt == stored.requestedAt && r.updatedAt == now
  {
    stored.(commitID := given.commitID, taskID := given.taskID, status := given.status, updatedAt := now)
  }

  class DocumentationStore {
    var results: map<Key, seq<Document>>
    var statuses: map<Key, StatusEntity>
    var deleting: map<Key, Time>
    const faults: set<Key>

    constructor (faults: set<Key>)
      ensures results == map[] && statuses == map[] && deleting == map[] && this.faults == faults
    {
      results := map[];
      statuses := map[];
      deleting := map[];
      this.faults := faults;
    }

    method CreateTarget(target: Option<DocumentationTarget>) returns (err: Outcome<DataError>)
      modifies this
      ensures target.None? ==> err == Fail(NoTargetSpecified)
      ensures target.Some? ==> var key := DocumentationTargetKey(target, KindDocumentationResult).value;
        match Fetch(old(results), faults, key)
        case Ok(_) => err == Fail(TargetAlreadyExists) && results == old(results)
        case Err(GetFailed) => err == Fail(GetFailure) && results == old(results)
        case Err(NoSuchEntity) => err == Pass && results == old(results)[key := []]
      ensures target.None? ==> results == old(results)
      ensures statuses == old(statuses) && deleting == old(deleting)
    {
      var key := DocumentationTargetKey(target, KindDocumentationResult);
      if key.Err? {
        return Fail(key.error);
      }
      var found := Fetch(results, faults, key.value);
      if found.Ok? {
        return Fail(TargetAlreadyExists);
      }
      if found.error != NoSuchEntity {
        return Fail(GetFailure);
      }
      results := results[key.value := []];
      return Pass;
    }

    method ExistsTarget(target: Option<DocumentationTarget>) returns (r: Result<bool, DataError>)
      ensures target.None? ==> r == Err(NoTargetSpecified)
      ensures target.Some? ==> var key := DocumentationTargetKey(target, KindDocumentationResult).value;
        r == if key in faults then Err(GetFailure) else Ok(key in results)
    {
      var key := DocumentationTargetKey(target, KindDocumentationResult);
      if key.Err? {
        return Err(key.error);
      }
      var found := Fetch(results, faults, key.value);
      if found.Ok? {
        return Ok(true);
      }
      if found.error == NoSuchEntity {
        return Ok(false);
      }
      return Err(GetFailure);
    }

    method GetResult(target: Option<DocumentationTarget>) returns (r: Result<DocumentationResult, DataError>)
      ensures target.None? ==> r == Err(NoTargetSpecified)
      ensures target.Some? ==> var key := DocumentationTargetKey(target, KindDocumentationResult).value;
        r == match Fetch(results, faults, key)
             case Ok(documents) => Ok(DocumentationResult(Some(DocumentMapOf(documents))))
             case Err(NoSuchEntity) => Err(NoSuchTarget)
             case Err(GetFailed) => Err(GetFailure)
    {
      var key := DocumentationTargetKey(target, KindDocumentationResult);
      if key.Err? {
        return Err(key.error);
      }
      var found := Fetch(results, faults, key.value);
      if found.Err? {
        return if found.error == NoSuchEntity then Err(NoSuchTarget) else Err(GetFailure);
      }
      var result := ToDocumentationResult(found.value);
      return Ok(result);
    }

    method PutDocument(target: Option<DocumentationTarget>, document: Option<Document>) returns (err: Outcome<DataError>)
      modifies this
      ensures target.None? ==> err == Fail(NoTargetSpecified) && results == old(results)
      ensures target.Some? ==> var key := DocumentationTargetKey(target, KindDocumentationResult).value;
        match Fetch(old(results), faults, key)
        case Err(NoSuchEntity) => err == Fail(NoSuchTarget) && results == old(results)
        case Err(GetFailed) => err == Fail(GetFailure) && results == old(results)
        case Ok(documents) =>
          if document.None? then err == Fail(NoDocumentSpecified) && results == old(results)
          else err == Pass && results == old(results)[key := DocumentsPut(documents, document.value)]
      ensures statuses == old(statuses) && deleting == old(deleting)
    {
      var key := DocumentationTargetKey(target, KindDocumentationResult);
      if key.Err? {
        return Fail(key.error);
      }
      var found := Fetch(results, faults, key.value);
      if found.Err? {
        return if found.error == NoSuchEntity then Fail(NoSuchTarget) else Fail(GetFailure);
      }
      var entity := new DocumentationResultEntity(found.value);
      err := entity.PutDocument(document);
      if err.Fail? {
        return;
      }
      results := results[key.value := entity.documents];
    }

    /** Stores a new status with RequestedAt and UpdatedAt both set to now; an existing status is refused. */
    method CreateStatus(target: Option<DocumentationTarget>, status: Option<DocumentationStatus>, now: Time) returns (err: Outcome<DataError>)
      modifies this
      ensures DocumentationStatusKey(target, status).Err? ==> err == Fail(DocumentationStatusKey(target, status).error) && statuses == old(statuses)
      ensures DocumentationStatusKey(target, status).Ok? ==> var key := DocumentationStatusKey(target, status).value;
        match Fetch(old(statuses), faults, key)
        case Ok(_) => err == Fail(StatusAlreadyExists) && statuses == old(statuses)
        case Err(GetFailed) => err == Fail(GetFailure) && statuses == old(statuses)
        case Err(NoSuchEntity) => (err == Pass
          && statuses == old(statuses)[key := StatusEntity(status.value.commitID, status.value.taskID, status.value.status, now, now)])
      ensures results == old(results) && deleting == old(deleting)
    {
      var key := DocumentationStatusKey(target, status);
      if key.Err? {
        return Fail(key.error);
      }
      var found := Fetch(statuses, faults, key.value);
      if found.Ok? {
        return Fail(StatusAlreadyExists);
      }
      if found.error != NoSuchEntity {
        return Fail(GetFailure);
      }
      var s := status.value;
      statuses := statuses[key.value := StatusEntity(s.commitID, s.taskID, s.status, now, now)];
      return Pass;
    }

    method GetStatus(target: Option<DocumentationTarget>, sequenceID: int64) returns (r: Result<DocumentationStatus, DataError>)
      ensures var key := DocumentationStatusKey(target, Some(DocumentationStatus(sequenceID, "", "", "", 0, 0)));
        r == if key.Err? then Err(key.error)
             else match Fetch(statuses, faults, key.value)
                  case Ok(entity) => Ok(ToDocumentationStatus(entity, sequenceID))
                  case Err(NoSuchEntity) => Err(NoSuchStatus)
                  case Err(GetFailed) => Err(GetFailure)
    {
      var key := DocumentationStatusKey(target, Some(DocumentationStatus(sequenceID, "", "", "", 0, 0)));
      if key.Err? {
        return Err(key.error);
      }
      var found := Fetch(statuses, faults, key.value);
      if found.Err? {
        return if found.error == NoSuchEntity then Err(NoSuchStatus) else Err(GetFailure);
      }
      return Ok(ToDocumentationStatus(found.value, sequenceID));
    }

    /**
     * updateStatus: overwrites CommitID, TaskID and Status and refreshes UpdatedAt, after the
     * condition (when given) that the stored Status equals prevStatus.
     */
    method UpdateStatusIf(target: Option<DocumentationTarget>, status: Option<DocumentationStatus>, prevStatus: Option<string>, now: Time)
      returns (err: Outcome<DataError>)
      modifies this
      ensures DocumentationStatusKey(target, status).Err? ==> err == Fail(DocumentationStatusKey(target, status).error) && statuses == old(statuses)
      ensures DocumentationStatusKey(target, status).Ok? ==> var key := DocumentationStatusKey(target, status).value;
        match Fetch(old(statuses), faults, key)
        case Err(NoSuchEntity) => err == Fail(NoSuchStatus) && statuses == old(statuses)
        case Err(GetFailed) => err == Fail(GetFailure) && statuses == old(statuses)
        case Ok(entity) =>
          if prevStatus.Some? && entity.status != prevStatus.value then
            err == Fail(UnsatisfiedStatusCondition) && statuses == old(statuses)
          else err == Pass && statuses == old(statuses)[key := Refreshed(entity, status.value, now)]
      ensures results == old(results) && deleting == old(deleting)
    {
      var key := DocumentationStatusKey(target, status);
      if key.Err? {
        return Fail(key.error);
      }
      var found := Fetch(statuses, faults, key.value);
      if found.Err? {
        return if found.error == NoSuchEntity then Fail(NoSuchStatus) else Fail(GetFailure);
      }
      if prevStatus.Some? && found.value.status != prevStatus.value {
        return Fail(UnsatisfiedStatusCondition);
      }
      statuses := statuses[key.value := Refreshed(found.value, status.value, now)];
      return Pass;
    }

    method UpdateStatus(target: Option<DocumentationTarget>, status: Option<DocumentationStatus>, now: Time) returns (err: Outcome<DataError>)
      modifies this
      ensures DocumentationStatusKey(target, status).Err? ==> err == Fail(DocumentationStatusKey(target, status).error) && statuses == old(statuses)
      ensures DocumentationStatusKey(target, status).Ok? ==> var key := DocumentationStatusKey(target, status).value;
        match Fetch(old(statuses), faults, key)
        case Err(NoSuchEntity) => err == Fail(NoSuchStatus) && statuses == old(statuses)
        case Err(GetFailed) => err == Fail(GetFailure) && statuses == old(statuses)
        case Ok(entity) => err == Pass && statuses == old(statuses)[key := Refreshed(entity, status.value, now)]
      ensures results == old(results) && deleting == old(deleting)
    {
      err := UpdateStatusIf(target, status, None, now);
    }

    method UpdateStatusWithCondition(target: Option<DocumentationTarget>, status: Option<DocumentationStatus>, prevStatus: string, now: Time)
      returns (err: Outcome<DataError>)
      modifies this
      ensures DocumentationStatusKey(target, status).Err? ==> err == Fail(DocumentationStatusKey(target, status).error) && statuses == old(statuses)
      ensures DocumentationStatusKey(target, status).Ok? ==> var key := DocumentationStatusKey(target, status).value;
        match Fetch(old(statuses), faults, key)
        case Err(NoSuchEntity) => err == Fail(NoSuchStatus) && statuses == old(statuses)
        case Err(GetFailed) => err == Fail(GetFailure) && statuses == old(statuses)
        case Ok(entity) =>
          if entity.status != prevStatus then err == Fail(UnsatisfiedStatusCondition) && statuses == old(statuses)
          else err == Pass && statuses == old(statuses)[key := Refreshed(entity, status.value, now)]
      ensures results == old(results) && deleting == old(deleting)
    {
      err := UpdateStatusIf(target, status, Some(prevStatus), now);
    }

    /** Marks the target with RequestedAt now unless already marked; a failed Get is reported (see Mark). */
    method MarkDeletingTarget(target: Option<DeletingTarget>, now: Time) returns (err: Outcome<DataError>)
      modifies this
      ensures target.None? ==> err == Fail(NoDeletingTargetSpecified) && deleting == old(deleting)
      ensures target.Some? ==> (err, deleting) == Mark(old(deleting), faults, DeletingTargetKey(target).value, now)
      ensures results == old(results) && statuses == old(statuses)
    {
      var key := DeletingTargetKey(target);
      if key.Err? {
        return Fail(key.error);
      }
      var found := Fetch(deleting, faults, key.value);
      if found.Ok? {
        return Pass;
      }
      if found.error != NoSuchEntity {
        return Fail(GetFailure);
      }
      deleting := deleting[key.value := now];
      return Pass;
    }

    method UnmarkDeletingTarget(target: Option<DeletingTarget>) returns (err: Outcome<DataError>)
      modifies this
      ensures target.None? ==> err == Fail(NoDeletingTargetSpecified) && deleting == old(deleting)
      ensures target.Some? ==> err == Pass && deleting == old(deleting) - {DeletingTargetKey(target).value}
      ensures results == old(results) && statuses == old(statuses)
    {
      var key := DeletingTargetKey(target);
      if key.Err? {
        return Fail(key.error);
      }
      deleting := deleting - {key.value};
      return Pass;
    }

    method IsDeletingTarget(target: Option<DeletingTarget>) returns (r: Result<bool, DataError>)
      ensures target.None? ==> r == Err(NoDeletingTargetSpecified)
      ensures target.Some? ==> var key := DeletingTargetKey(target).value;
        r == if key in faults then Err(GetFailure) else Ok(key in deleting)
    {
      var key := DeletingTargetKey(target);
      if key.Err? {
        return Err(key.error);
      }
      var found := Fetch(deleting, faults, key.value);
      if found.Err? && found.error == NoSuchEntity {
        return Ok(false);
      }
      if found.Err? {
        return Err(GetFailure);
      }
      return Ok(true);
    }
  }
}
