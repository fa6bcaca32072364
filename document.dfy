/**
 * The documentation data package: documents, the type-to-commit DocumentMap, documentation
 * targets, statuses and the store's error sentinels, with the two conversions between a
 * document list and a DocumentMap.
 */
module Documents {
  import opened Wrappers
  import opened Identity

  datatype Document = Document(docType: string, commitID: string)

  /** Document type to commit ID. */
  type DocumentMap = map<string, string>

  /** Go's int64, the type of repository and sequence IDs. */
  newtype int64 = x: int | -0x8000_0000_0000_0000 <= x < 0x8000_0000_0000_0000

  /** Times are whole instants supplied by the caller. */
  type Time = int

  datatype DocumentationTarget = DocumentationTarget(repositoryID: int64, reference: Reference)

  datatype DeletingTarget = DeletingTarget(repositoryID: int64, reference: Reference)

  /** A result whose Documents map may be nil (None), as a freshly created target's is. */
  datatype DocumentationResult = DocumentationResult(documents: Option<DocumentMap>)

  datatype DocumentationStatus = DocumentationStatus(
    sequenceID: int64, commitID: string, taskID: string, status: string, requestedAt: Time, updatedAt: Time)

  const StatusQueuing: string := "queuing"
  const StatusQueued: string := "queued"
  const StatusStarted: string := "started"
  const StatusSucceeded: string := "succeeded"
  const StatusFailed: string := "failed"
  const StatusCancelled: string := "cancelled"

  /** The store's sentinel errors, and any other error by its message. */
  datatype DataError =
    | NoSuchTarget
    | TargetAlreadyExists
    | NoSuchStatus
    | StatusAlreadyExists
    | UnsatisfiedStatusCondition
    | OtherError(message: string)

  /** The map MakeDocumentMapFromDocuments builds: each document in turn overwrites its type. */
  function DocumentMapOf(documents: seq<Document>): DocumentMap
    decreases |documents|
  {
    if documents == [] then map[]
    else
      var last := documents[|documents| - 1];
      DocumentMapOf(documents[..|documents| - 1])[last.docType := last.commitID]
  }

  /** What ListDocuments promises of its list: every element is an entry of the map, and every entry is an element. */
  predicate ListsDocuments(documents: seq<Document>, docMap: DocumentMap) {
    (forall i :: 0 <= i < |documents| ==> documents[i].docType in docMap && docMap[documents[i].docType] == documents[i].commitID)
    && (forall k :: k in docMap ==> Document(k, docMap[k]) in documents)
  }

  /** The keys of the built map are exactly the types in the list. */
  lemma {:induction false} DocumentMapKeys(documents: seq<Document>)
    ensures DocumentMapOf(documents).Keys == set i | 0 <= i < |documents| :: documents[i].docType
    decreases |documents|
  {
    if documents != [] {
      var n := |documents| - 1;
      var init := documents[..n];
      DocumentMapKeys(init);
      var lhs := DocumentMapOf(documents).Keys;
      var rhs := set i | 0 <= i < |documents| :: documents[i].docType;
      forall k | k in rhs ensures k in lhs {
        var i :| 0 <= i < |documents| && documents[i].docType == k;
        if i < n {
          assert init[i].docType == k;
        }
      }
      forall k | k in lhs ensures k in rhs {
        if k != documents[n].docType {
          var i :| 0 <= i < |init| && init[i].docType == k;
          assert documents[i].docType == k;
        }
      }
    }
  }

  /** The document at the largest index of its type wins. */
  lemma {:induction false} DocumentMapLastWins(documents: seq<Document>, i: nat)
    requires i < |documents|
    requires forall j :: i < j < |documents| ==> documents[j].docType != documents[i].docType
    ensures documents[i].docType in DocumentMapOf(documents)
    ensures DocumentMapOf(documents)[documents[i].docType] == documents[i].commitID
    decreases |documents|
  {
    var n := |documents| - 1;
    if i < n {
      var init := documents[..n];
      DocumentMapLastWins(init, i);
      assert init[i] == documents[i];
    }
  }

  /** When every listed document of a type agrees with m, so does the built map. */
  lemma {:induction false} DocumentMapAgrees(documents: seq<Document>, m: DocumentMap)
    requires forall i :: 0 <= i < |documents| ==> documents[i].docType in m && m[documents[i].docType] == documents[i].commitID
    ensures forall k :: k in DocumentMapOf(documents) ==> k in m && DocumentMapOf(documents)[k] == m[k]
    decreases |documents|
  {
    if documents != [] {
      var n := |documents| - 1;
      var init := documents[..n];
      assert forall i :: 0 <= i < |init| ==> init[i] == documents[i];
      DocumentMapAgrees(init, m);
    }
  }

  /** Building a map from the list of a map gives the map back (the clone in the in-memory store relies on this). */
  lemma ListThenMakeIsIdentity(documents: seq<Document>, docMap: DocumentMap)
    requires ListsDocuments(documents, docMap)
    ensures DocumentMapOf(documents) == docMap
  {
    var built := DocumentMapOf(documents);
    DocumentMapKeys(documents);
    DocumentMapAgrees(documents, docMap);
    forall k | k in docMap ensures k in built {
      var d := Document(k, docMap[k]);
      var i :| 0 <= i < |documents| && documents[i] == d;
      assert documents[i].docType == k;
    }
  }

  method MakeDocumentMapFromDocuments(documents: seq<Document>) returns (docMap: DocumentMap)
    ensures docMap == DocumentMapOf(documents)
  {
    docMap := map[];
    var i := 0;
    while i < |documents|
      invariant 0 <= i <= |documents|
      invariant docMap == DocumentMapOf(documents[..i])
    {
      assert documents[..i + 1][..i] == documents[..i];
      docMap := docMap[documents[i].docType := documents[i].commitID];
      i := i + 1;
    }
    assert documents[..i] == documents;
  }

  /** One document per entry, in an unspecified order. */
  method ListDocuments(docMap: DocumentMap) returns (documents: seq<Document>)
    ensures ListsDocuments(documents, docMap)
    ensures |documents| == |docMap|
    ensures forall i, j :: 0 <= i < j < |documents| ==> documents[i].docType != documents[j].docType
  {
    documents := [];
    var remaining := docMap.Keys;
    while remaining != {}
      invariant remaining <= docMap.Keys
      invariant |documents| + |remaining| == |docMap|
      invariant forall i :: 0 <= i < |documents| ==>
        documents[i].docType in docMap && docMap[documents[i].docType] == documents[i].commitID && documents[i].docType !in remaining
      invariant forall k :: k in docMap && k !in remaining ==> Document(k, docMap[k]) in documents
      invariant forall i, j :: 0 <= i < j < |documents| ==> documents[i].docType != documents[j].docType
      decreases |remaining|
    {
      var k :| k in remaining;
      documents := documents + [Document(k, docMap[k])];
      remaining := remaining - {k};
    }
  }
}
